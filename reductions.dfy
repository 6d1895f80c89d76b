/**
 * The numeric reductions the statistics use: the largest and smallest element
 * of a column (`Math.max(...xs)`, `Math.min(...xs)`), its left-to-right sum
 * (`xs.reduce((a, b) => a + b, 0)`) and the unweighted arithmetic mean.
 */
module Reductions {

  /** The largest element, scanning left to right. */
  function Max(s: seq<real>): (m: real)
    requires |s| > 0
    ensures m in s
    ensures forall i :: 0 <= i < |s| ==> s[i] <= m
  {
    if |s| == 1 then s[0]
    else
      var m := Max(s[..|s| - 1]);
      if s[|s| - 1] > m then s[|s| - 1] else m
  }

  /** The smallest element, scanning left to right. */
  function Min(s: seq<real>): (m: real)
    requires |s| > 0
    ensures m in s
    ensures forall i :: 0 <= i < |s| ==> m <= s[i]
  {
    if |s| == 1 then s[0]
    else
      var m := Min(s[..|s| - 1]);
      if s[|s| - 1] < m then s[|s| - 1] else m
  }

  /** The left fold of `+` over `s`, starting from 0. */
  function Sum(s: seq<real>): real
  {
    if |s| == 0 then 0.0 else Sum(s[..|s| - 1]) + s[|s| - 1]
  }

  /** The unweighted arithmetic mean: the sum divided by the number of elements. */
  function Mean(s: seq<real>): real
    requires |s| > 0
  {
    Sum(s) / |s| as real
  }

  /** The sum of a column of one repeated value is that value times the length. */
  lemma {:induction false} SumConstant(s: seq<real>, c: real)
    requires forall i :: 0 <= i < |s| ==> s[i] == c
    ensures Sum(s) == |s| as real * c
  {
    if |s| > 0 {
      SumConstant(s[..|s| - 1], c);
    }
  }

  /** One more element no larger than `hi` keeps a sum of k elements below (k + 1) * hi. */
  lemma StepUpper(k: real, sum: real, x: real, hi: real)
    requires 0.0 <= k && sum <= k * hi && x <= hi
    ensures sum + x <= (k + 1.0) * hi
  {
  }

  /** One more element no smaller than `lo` keeps a sum of k elements above (k + 1) * lo. */
  lemma StepLower(k: real, sum: real, x: real, lo: real)
    requires 0.0 <= k && k * lo <= sum && lo <= x
    ensures (k + 1.0) * lo <= sum + x
  {
  }

  /** Dividing n copies of c by n gives c back. */
  lemma DivideOut(n: real, c: real)
    requires n > 0.0
    ensures n * c / n == c
  {
  }

  /** n * lo <= s <= n * hi gives lo <= s / n <= hi for a positive n. */
  lemma DivideBetween(lo: real, s: real, hi: real, n: real)
    requires 0.0 < n && n * lo <= s <= n * hi
    ensures lo <= s / n <= hi
  {
    assert s / n - lo == (s - n * lo) / n;
    assert hi - s / n == (n * hi - s) / n;
  }

  /** A column of n elements, each between lo and hi, sums to between n * lo and n * hi. */
  lemma {:induction false} SumBetween(s: seq<real>, lo: real, hi: real)
    requires forall i :: 0 <= i < |s| ==> lo <= s[i] <= hi
    ensures |s| as real * lo <= Sum(s) <= |s| as real * hi
  {
    if |s| > 0 {
      var p := s[..|s| - 1];
      SumBetween(p, lo, hi);
      StepUpper(|p| as real, Sum(p), s[|s| - 1], hi);
      StepLower(|p| as real, Sum(p), s[|s| - 1], lo);
    }
  }

  /** The mean of a column whose elements all lie between lo and hi lies there too. */
  lemma MeanWithin(s: seq<real>, lo: real, hi: real)
    requires |s| > 0
    requires forall i :: 0 <= i < |s| ==> lo <= s[i] <= hi
    ensures lo <= Mean(s) <= hi
  {
    SumBetween(s, lo, hi);
    DivideBetween(lo, Sum(s), hi, |s| as real);
  }

  /** The mean lies between the smallest and the largest element. */
  lemma MeanBetween(s: seq<real>)
    requires |s| > 0
    ensures Min(s) <= Mean(s) <= Max(s)
  {
    MeanWithin(s, Min(s), Max(s));
  }

  /** The mean of a column of one repeated value is that value. */
  lemma MeanConstant(s: seq<real>, c: real)
    requires |s| > 0
    requires forall i :: 0 <= i < |s| ==> s[i] == c
    ensures Mean(s) == c
  {
    SumConstant(s, c);
    DivideOut(|s| as real, c);
  }

  /** A constant column has that constant as its minimum, maximum and mean. */
  lemma MeanOfConstant(s: seq<real>, c: real)
    requires |s| > 0
    requires forall i :: 0 <= i < |s| ==> s[i] == c
    ensures Min(s) == c && Max(s) == c && Mean(s) == c
  {
    MeanConstant(s, c);
    assert Min(s) in s && Max(s) in s;
  }
}
