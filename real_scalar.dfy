/// Comparison-only scalar helpers of the parallel math layer, over exact reals.
/// The library's `real` is a float or a double; only comparisons, negation and the exact
/// fmin/fmax are involved here, so NaN is the one float behaviour not captured.
module RealScalar {

  /// fabs: the magnitude of x.
  function Abs(x: real): (r: real)
    ensures r >= 0.0
    ensures r == x || r == -x
  {
    if x < 0.0 then -x else x
  }

  /// fmin on non-NaN arguments: the smaller of the two.
  function Min(a: real, b: real): (r: real)
    ensures r <= a && r <= b
    ensures r == a || r == b
  {
    if a <= b then a else b
  }

  /// fmax on non-NaN arguments: the larger of the two.
  function Max(a: real, b: real): (r: real)
    ensures r >= a && r >= b
    ensures r == a || r == b
  {
    if a >= b then a else b
  }

  /// Sign: -1 for negatives, +1 for positives, 0 only for zero.
  function Sign(x: real): (s: real)
    ensures s == -1.0 || s == 0.0 || s == 1.0
    ensures s * x == Abs(x)
    ensures s == 0.0 <==> x == 0.0
  {
    if x < 0.0 then -1.0
    else if x > 0.0 then 1.0
    else 0.0
  }

  /// Swap exchanges its two reference arguments; the pair of out-parameters is the pair
  /// of new values.
  method Swap<T>(a: T, b: T) returns (a': T, b': T)
    ensures a' == b && b' == a
  {
    var temp := a;
    a' := b;
    b' := temp;
  }

  /// Clamp: the bounds are put in order first (a local swap), then x is cut to them.
  method Clamp(x: real, low: real, high: real) returns (r: real)
    ensures Min(low, high) <= r <= Max(low, high)
    ensures Min(low, high) <= x <= Max(low, high) ==> r == x
    ensures x < Min(low, high) ==> r == Min(low, high)
    ensures x > Max(low, high) ==> r == Max(low, high)
  {
    var lo, hi := low, high;
    if lo > hi {
      lo, hi := Swap(lo, hi);
    }
    r := Max(lo, Min(x, hi));
  }

  /// Exchanging the two bounds does not change what Clamp returns.
  method ClampArgumentOrder(x: real, low: real, high: real) returns (r1: real, r2: real)
    ensures r1 == r2
  {
    r1 := Clamp(x, low, high);
    r2 := Clamp(x, high, low);
  }

  /// ClampMin: x raised to at least low.
  function ClampMin(x: real, low: real): (r: real)
    ensures r >= low
    ensures x >= low ==> r == x
    ensures x < low ==> r == low
  {
    Max(low, x)
  }

  /// ClampMax: x lowered to at most high.
  function ClampMax(x: real, high: real): (r: real)
    ensures r <= high
    ensures x <= high ==> r == x
    ensures x > high ==> r == high
  {
    Min(x, high)
  }

  /// With ordered bounds, Clamp is ClampMax followed by ClampMin.
  method ClampIsOneSidedTwice(x: real, low: real, high: real) returns (r: real)
    requires low <= high
    ensures r == ClampMin(ClampMax(x, high), low)
  {
    r := Clamp(x, low, high);
  }
}
