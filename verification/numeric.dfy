/** Numbers shared by the backend modules: an Option type, rounding to one
    decimal place, sums and means. */
module Numeric {

  datatype Option<T> = None | Some(value: T)

  /** round(x, 1): the multiple of 0.1 nearest to x, ties upward. */
  function RoundTenth(x: real): (r: real)
    ensures x - 1.0 / 20.0 < r <= x + 1.0 / 20.0
  {
    ((10.0 * x + 0.5).Floor as real) / 10.0
  }

  /** Rounding to a tenth never reverses an order. */
  lemma RoundTenthMonotone(x: real, y: real)
    requires x <= y
    ensures RoundTenth(x) <= RoundTenth(y)
  {
    var fx := (10.0 * x + 0.5).Floor;
    var fy := (10.0 * y + 0.5).Floor;
    assert fx as real <= 10.0 * x + 0.5 <= 10.0 * y + 0.5 < fy as real + 1.0;
    assert fx <= fy;
    assert RoundTenth(x) == fx as real / 10.0;
    assert RoundTenth(y) == fy as real / 10.0;
  }

  /** Rounding keeps the sign of a non-negative value. */
  lemma RoundTenthNonNegative(x: real)
    requires x >= 0.0
    ensures RoundTenth(x) >= 0.0
  {
    RoundTenthMonotone(0.0, x);
  }

  function SumReal(s: seq<real>): real {
    if s == [] then 0.0 else SumReal(s[..|s| - 1]) + s[|s| - 1]
  }

  function SumInt(s: seq<int>): int {
    if s == [] then 0 else SumInt(s[..|s| - 1]) + s[|s| - 1]
  }

  /** sum(s) / len(s) */
  function Mean(s: seq<real>): real
    requires |s| > 0
  {
    SumReal(s) / (|s| as real)
  }

  /** A sum of values between lo and hi lies between |s|*lo and |s|*hi. */
  lemma {:induction false} SumRealBounds(s: seq<real>, lo: real, hi: real)
    requires forall i :: 0 <= i < |s| ==> lo <= s[i] <= hi
    ensures (|s| as real) * lo <= SumReal(s) <= (|s| as real) * hi
  {
    if s != [] {
      var n := |s| - 1;
      SumRealBounds(s[..n], lo, hi);
      assert (|s| as real) * lo == (n as real) * lo + lo;
      assert (|s| as real) * hi == (n as real) * hi + hi;
    }
  }

  /** The mean of values between lo and hi lies between lo and hi. */
  lemma MeanBounds(s: seq<real>, lo: real, hi: real)
    requires |s| > 0
    requires forall i :: 0 <= i < |s| ==> lo <= s[i] <= hi
    ensures lo <= Mean(s) <= hi
  {
    SumRealBounds(s, lo, hi);
    var n := |s| as real;
    assert SumReal(s) / n >= (n * lo) / n;
    assert SumReal(s) / n <= (n * hi) / n;
  }
}
