/** Generic sequence helpers standing for JavaScript's Array.prototype.filter and reduce. */
module Seqs {

  /** `s.filter(p)`: the elements of `s` that satisfy `p`, in their original order. */
  function Filter<T(!new)>(s: seq<T>, p: T -> bool): (r: seq<T>)
    ensures |r| <= |s|
    ensures forall x :: x in r <==> x in s && p(x)
    decreases |s|
  {
    if s == [] then []
    else if p(s[0]) then [s[0]] + Filter(s[1..], p)
    else Filter(s[1..], p)
  }

  /** `r` can be obtained from `s` by deleting elements (order is kept). */
  predicate IsSubsequence<T(==)>(r: seq<T>, s: seq<T>)
    decreases |s|
  {
    if r == [] then true
    else if s == [] then false
    else (r[0] == s[0] && IsSubsequence(r[1..], s[1..])) || IsSubsequence(r, s[1..])
  }

  lemma {:induction false} FilterIsSubsequence<T(!new)>(s: seq<T>, p: T -> bool)
    ensures IsSubsequence(Filter(s, p), s)
    decreases |s|
  {
    if s != [] {
      FilterIsSubsequence(s[1..], p);
    }
  }

  /** Filtering with a predicate every element satisfies keeps the whole sequence. */
  lemma {:induction false} FilterAll<T(!new)>(s: seq<T>, p: T -> bool)
    requires forall x :: x in s ==> p(x)
    ensures Filter(s, p) == s
    decreases |s|
  {
    if s != [] {
      FilterAll(s[1..], p);
    }
  }

  /** `s.reduce((sum, x) => sum + f(x), 0)`. */
  function SumOf<T>(s: seq<T>, f: T -> real): real
    decreases |s|
  {
    if s == [] then 0.0 else f(s[0]) + SumOf(s[1..], f)
  }

  lemma {:induction false} SumOfAppend<T>(a: seq<T>, b: seq<T>, f: T -> real)
    ensures SumOf(a + b, f) == SumOf(a, f) + SumOf(b, f)
    decreases |a|
  {
    if a == [] {
      assert a + b == b;
    } else {
      assert (a + b)[1..] == a[1..] + b;
      SumOfAppend(a[1..], b, f);
    }
  }

  /** Taking one summand out of a sum. */
  lemma {:induction false} SumOfRemove<T>(b: seq<T>, k: nat, f: T -> real)
    requires k < |b|
    ensures SumOf(b, f) == f(b[k]) + SumOf(b[..k] + b[k + 1..], f)
    decreases k
  {
    if k > 0 {
      SumOfRemove(b[1..], k - 1, f);
      assert b[1..][..k - 1] + b[1..][k..] == (b[..k] + b[k + 1..])[1..];
    } else {
      assert b[..k] + b[k + 1..] == b[1..];
    }
  }

  lemma MultisetRemove<T>(b: seq<T>, k: nat)
    requires k < |b|
    ensures multiset(b[..k] + b[k + 1..]) == multiset(b) - multiset{b[k]}
  {
    assert b == b[..k] + [b[k]] + b[k + 1..];
  }

  /** Sums do not depend on the order of the summands. */
  lemma {:induction false} SumOfPermutation<T>(a: seq<T>, b: seq<T>, f: T -> real)
    requires multiset(a) == multiset(b)
    ensures SumOf(a, f) == SumOf(b, f)
    decreases |a|
  {
    if a == [] {
      assert |b| == |multiset(b)| == 0;
    } else {
      assert a[0] in multiset(b);
      var k :| 0 <= k < |b| && b[k] == a[0];
      var rest := b[..k] + b[k + 1..];
      MultisetRemove(b, k);
      assert a == [a[0]] + a[1..];
      assert multiset(a[1..]) == multiset(a) - multiset{a[0]};
      SumOfPermutation(a[1..], rest, f);
      SumOfRemove(b, k, f);
    }
  }

  /** Pointwise equal summands give equal sums. */
  lemma {:induction false} SumOfCongruent<T>(s: seq<T>, f: T -> real, g: T -> real)
    requires forall x :: x in s ==> f(x) == g(x)
    ensures SumOf(s, f) == SumOf(s, g)
    decreases |s|
  {
    if s != [] {
      SumOfCongruent(s[1..], f, g);
    }
  }

  lemma {:induction false} SumOfNonNegative<T>(s: seq<T>, f: T -> real)
    requires forall x :: x in s ==> f(x) >= 0.0
    ensures SumOf(s, f) >= 0.0
    decreases |s|
  {
    if s != [] {
      SumOfNonNegative(s[1..], f);
    }
  }

  /** A sum whose summands are pointwise sums splits in two. */
  lemma {:induction false} SumOfPlus<T>(s: seq<T>, f: T -> real, g: T -> real, h: T -> real)
    requires forall x :: x in s ==> h(x) == f(x) + g(x)
    ensures SumOf(s, h) == SumOf(s, f) + SumOf(s, g)
    decreases |s|
  {
    if s != [] {
      SumOfPlus(s[1..], f, g, h);
    }
  }

  /** A constant factor comes out of a sum. */
  lemma {:induction false} SumOfScale<T>(s: seq<T>, f: T -> real, g: T -> real, k: real)
    requires forall x :: x in s ==> g(x) == k * f(x)
    ensures SumOf(s, g) == k * SumOf(s, f)
    decreases |s|
  {
    if s != [] {
      SumOfScale(s[1..], f, g, k);
    }
  }

  /** Positive summands give a positive sum. */
  lemma {:induction false} SumOfPositive<T>(s: seq<T>, f: T -> real)
    requires s != []
    requires forall x :: x in s ==> f(x) > 0.0
    ensures SumOf(s, f) > 0.0
    decreases |s|
  {
    if s[1..] != [] {
      SumOfPositive(s[1..], f);
    }
  }

  /** Filtering out elements whose summand is zero leaves the sum unchanged. */
  lemma {:induction false} SumOfFilterZero<T(!new)>(s: seq<T>, p: T -> bool, f: T -> real)
    requires forall x :: x in s && !p(x) ==> f(x) == 0.0
    ensures SumOf(Filter(s, p), f) == SumOf(s, f)
    decreases |s|
  {
    if s != [] {
      SumOfFilterZero(s[1..], p, f);
    }
  }

  /** Nonnegative summands that sum to zero are all zero. */
  lemma {:induction false} SumOfZero<T>(s: seq<T>, f: T -> real)
    requires forall x :: x in s ==> f(x) >= 0.0
    requires SumOf(s, f) == 0.0
    ensures forall x :: x in s ==> f(x) == 0.0
    decreases |s|
  {
    if s != [] {
      SumOfNonNegative(s[1..], f);
      SumOfZero(s[1..], f);
    }
  }

  /** Summands bounded by others with the same total equal them. */
  lemma {:induction false} SumOfAtBound<T>(s: seq<T>, f: T -> real, g: T -> real)
    requires forall x :: x in s ==> f(x) <= g(x)
    requires SumOf(s, f) == SumOf(s, g)
    ensures forall x :: x in s ==> f(x) == g(x)
    decreases |s|
  {
    if s != [] {
      assert forall x :: x in s[1..] ==> x in s;
      SumOfBelow(s[1..], f, g);
      SumOfAtBound(s[1..], f, g);
    }
  }

  lemma {:induction false} SumOfBelow<T>(s: seq<T>, f: T -> real, g: T -> real)
    requires forall x :: x in s ==> f(x) <= g(x)
    ensures SumOf(s, f) <= SumOf(s, g)
    decreases |s|
  {
    if s != [] {
      SumOfBelow(s[1..], f, g);
    }
  }

  /** Summands that differ by at most `e` give sums that differ by at most `e` times the count. */
  lemma {:induction false} SumOfClose<T>(s: seq<T>, f: T -> real, g: T -> real, e: real)
    requires forall x :: x in s ==> -e <= f(x) - g(x) <= e
    ensures -e * |s| as real <= SumOf(s, f) - SumOf(s, g) <= e * |s| as real
    decreases |s|
  {
    if s != [] {
      SumOfClose(s[1..], f, g, e);
      var n := |s[1..]| as real;
      assert |s| as real == n + 1.0;
      assert e * |s| as real == e * n + e;
      assert -e * |s| as real == -(e * n) - e;
      assert -e * n == -(e * n);
      assert s[0] in s;
      assert SumOf(s, f) - SumOf(s, g) == (f(s[0]) - g(s[0])) + (SumOf(s[1..], f) - SumOf(s[1..], g));
    }
  }

  /** The sum over a prefix one element longer. */
  lemma SumOfPrefixNext<T>(s: seq<T>, f: T -> real, i: nat)
    requires i < |s|
    ensures SumOf(s[..i + 1], f) == SumOf(s[..i], f) + f(s[i])
  {
    assert s[..i + 1] == s[..i] + [s[i]];
    SumOfAppend(s[..i], [s[i]], f);
  }

  /** With nonnegative summands a prefix sum grows with the prefix and stays below the whole. */
  lemma SumOfPrefixBounds<T>(s: seq<T>, f: T -> real, i: nat, j: nat)
    requires i <= j <= |s|
    requires forall x :: x in s ==> f(x) >= 0.0
    ensures 0.0 <= SumOf(s[..i], f) <= SumOf(s[..j], f) <= SumOf(s, f)
  {
    assert s[..j] == s[..i] + s[i..j];
    assert s == s[..j] + s[j..];
    SumOfAppend(s[..i], s[i..j], f);
    SumOfAppend(s[..j], s[j..], f);
    SumOfNonNegative(s[..i], f);
    SumOfNonNegative(s[i..j], f);
    SumOfNonNegative(s[j..], f);
  }

  /** The first element's summand split off a prefix sum. */
  lemma SumOfPrefixTail<T>(s: seq<T>, f: T -> real, j: nat)
    requires 0 < j <= |s|
    ensures SumOf(s[..j], f) == f(s[0]) + SumOf(s[1..][..j - 1], f)
  {
    assert s[..j][1..] == s[1..][..j - 1];
  }

  /** `s.map(f)`. */
  function MapSeq<T, U>(s: seq<T>, f: T -> U): (r: seq<U>)
    ensures |r| == |s|
    ensures forall i :: 0 <= i < |s| ==> r[i] == f(s[i])
  {
    seq(|s|, i requires 0 <= i < |s| => f(s[i]))
  }
}
