/** Small shared vocabulary: an optional value and sums of real sequences. */
module Common {

  datatype Option<T> = None | Some(value: T)

  function Abs(x: real): (r: real)
    ensures r >= 0.0 && (r == x || r == -x)
  {
    if x < 0.0 then -x else x
  }

  function Max(a: int, b: int): (r: int)
    ensures r >= a && r >= b && (r == a || r == b)
  {
    if a < b then b else a
  }

  /** The sum of a sequence, accumulated left to right as `reduce` does. */
  function Sum(s: seq<real>): real
    decreases |s|
  {
    if s == [] then 0.0 else Sum(s[..|s| - 1]) + s[|s| - 1]
  }

  lemma SumAppend(s: seq<real>, x: real)
    ensures Sum(s + [x]) == Sum(s) + x
  {
    assert (s + [x])[..|s|] == s;
  }

  ghost predicate NonNegative(s: seq<real>) {
    forall i :: 0 <= i < |s| ==> s[i] >= 0.0
  }

  lemma {:induction false} SumNonNegative(s: seq<real>)
    requires NonNegative(s)
    ensures Sum(s) >= 0.0
    decreases |s|
  {
    if s != [] {
      SumNonNegative(s[..|s| - 1]);
    }
  }

  /** Each entry of a non-negative sequence is bounded by the whole sum. */
  lemma {:induction false} EntryAtMostSum(s: seq<real>, k: int)
    requires NonNegative(s) && 0 <= k < |s|
    ensures s[k] <= Sum(s)
    decreases |s|
  {
    var s' := s[..|s| - 1];
    SumNonNegative(s');
    if k < |s| - 1 {
      EntryAtMostSum(s', k);
    }
  }

  /** A non-negative sequence with sum zero is all zeros. */
  lemma ZeroSumNonNegative(s: seq<real>, k: int)
    requires NonNegative(s) && Sum(s) <= 0.0 && 0 <= k < |s|
    ensures s[k] == 0.0
  {
    EntryAtMostSum(s, k);
  }

  /** A sequence of n copies of x, as `Array(n).fill(x)` builds. */
  function Repeat(x: real, n: nat): (r: seq<real>)
    ensures |r| == n
    decreases n
  {
    if n == 0 then [] else Repeat(x, n - 1) + [x]
  }

  lemma {:induction false} RepeatAt(x: real, n: nat, i: int)
    requires 0 <= i < n
    ensures Repeat(x, n)[i] == x
    decreases n
  {
    if i < n - 1 {
      RepeatAt(x, n - 1, i);
    }
  }

  lemma {:induction false} SumRepeat(x: real, n: nat)
    ensures Sum(Repeat(x, n)) == n as real * x
    decreases n
  {
    if n > 0 {
      var m := (n - 1) as real;
      SumRepeat(x, n - 1);
      SumAppend(Repeat(x, n - 1), x);
      assert (m + 1.0) * x == m * x + x;
    }
  }

  // Facts of real arithmetic the solver does not find unaided.

  lemma DivMulCancel(k: real, d: real)
    requires d != 0.0
    ensures d * (k / d) == k && (k / d) * d == k
  {
  }

  lemma MulPositive(a: real, b: real)
    requires a > 0.0 && b > 0.0
    ensures a * b > 0.0
  {
  }

  lemma DivAdd(a: real, b: real, d: real)
    requires d != 0.0
    ensures a / d + b / d == (a + b) / d
  {
    DivMulCancel(a, d);
    DivMulCancel(b, d);
    DivMulCancel(a + b, d);
    assert (a / d + b / d) * d == a + b;
  }

  lemma QuotientBelowOne(x: real, d: real)
    requires d > 0.0 && x < d
    ensures x / d < 1.0
  {
    DivMulCancel(x, d);
    assert (1.0 - x / d) * d == d - x;
    PositiveFactor(1.0 - x / d, d);
  }

  lemma QuotientAtLeastOne(x: real, d: real)
    requires d > 0.0 && x >= d
    ensures x / d >= 1.0
  {
    if x > d {
      DivMulCancel(x, d);
      assert (x / d - 1.0) * d == x - d;
      PositiveFactor(x / d - 1.0, d);
    }
  }

  lemma PositiveQuotient(x: real, d: real)
    requires d > 0.0 && x > 0.0
    ensures x / d > 0.0
  {
    DivMulCancel(x, d);
    PositiveFactor(x / d, d);
  }

  lemma NonNegativeQuotient(a: real, d: real)
    requires a >= 0.0 && d > 0.0
    ensures a / d >= 0.0
  {
  }

  lemma PositiveFactor(x: real, y: real)
    requires y > 0.0 && x * y > 0.0
    ensures x > 0.0
  {
  }

  lemma MulLtRight(a: real, b: real, c: real)
    requires a < b && c > 0.0
    ensures a * c < b * c
  {
    assert b * c - a * c == (b - a) * c;
    MulPositive(b - a, c);
  }

  /** a/p < b/q by cross multiplication, for positive denominators. */
  lemma DivLt(x: real, y: real, d: real)
    requires x < y && d > 0.0
    ensures x / d < y / d
  {
    MulLtRight(x, y, d);
    FracLt(x, d, y, d);
  }

  lemma FracLt(a: real, p: real, b: real, q: real)
    requires p > 0.0 && q > 0.0 && a * q < b * p
    ensures a / p < b / q
  {
    var u, v := a / p, b / q;
    DivMulCancel(a, p);
    DivMulCancel(b, q);
    MulPositive(p, q);
    assert (v - u) * (p * q) == (v * q) * p - (u * p) * q;
    PositiveFactor(v - u, p * q);
  }

  /** Scaling numerator and denominator alike leaves a quotient unchanged. */
  lemma DivScale(a: real, d: real, c: real)
    requires d != 0.0 && c != 0.0
    ensures (c * a) / (c * d) == a / d
  {
    var u := a / d;
    DivMulCancel(a, d);
    assert c * a == u * (c * d);
  }
}
