/**
 * The discrete Dirac delta: zero everywhere except at the grid point nearest
 * to the centre, where it holds the scale divided by the grid spacing.
 */
module DeltaShape {
  import opened Special
  import opened Grids

  /** |x - c| */
  function Dist(x: real, c: real): (r: real)
    ensures r >= 0.0
    ensures r == 0.0 <==> x == c
  {
    if x >= c then x - c else c - x
  }

  /** Index k minimises |xs[k] - c|. */
  predicate IsNearest(xs: seq<real>, c: real, k: int) {
    0 <= k < |xs| && forall i :: 0 <= i < |xs| ==> Dist(xs[k], c) <= Dist(xs[i], c)
  }

  /** Index k is the first minimiser, as np.argmin picks it: ties go to the smallest index. */
  predicate IsFirstNearest(xs: seq<real>, c: real, k: int) {
    IsNearest(xs, c, k) && forall i :: 0 <= i < k ==> Dist(xs[k], c) < Dist(xs[i], c)
  }

  /** np.argmin(np.abs(x - center)) */
  function NearestIndex(xs: seq<real>, c: real): (k: nat)
    requires |xs| > 0
    ensures IsFirstNearest(xs, c, k)
  {
    if |xs| == 1 then 0
    else
      var p := xs[..|xs| - 1];
      var k := NearestIndex(p, c);
      assert forall i :: 0 <= i < |p| ==> p[i] == xs[i];
      if Dist(xs[|xs| - 1], c) < Dist(xs[k], c) then |xs| - 1 else k
  }

  lemma FirstNearestUnique(xs: seq<real>, c: real, k1: int, k2: int)
    requires IsFirstNearest(xs, c, k1) && IsFirstNearest(xs, c, k2)
    ensures k1 == k2
  {
    assert Dist(xs[k1], c) <= Dist(xs[k2], c) && Dist(xs[k2], c) <= Dist(xs[k1], c);
    assert !(Dist(xs[k2], c) < Dist(xs[k1], c));
  }

  /** The centre lies within [min(x), max(x)]. */
  predicate InRange(xs: seq<real>, c: real) {
    |xs| > 0 && Min(xs) <= c <= Max(xs)
  }

  /** The domain spacing dx: (max - min) / (len - 1), or 1 for a single point. */
  function Spacing(xs: seq<real>): real
    requires |xs| > 0
  {
    if |xs| > 1 then (Max(xs) - Min(xs)) / ((|xs| - 1) as real) else 1.0
  }

  /** The spacing is never negative, and it is zero only on a grid of several equal points. */
  lemma SpacingSign(xs: seq<real>)
    requires |xs| > 0
    ensures Spacing(xs) >= 0.0
    ensures Spacing(xs) == 0.0 <==> |xs| > 1 && Min(xs) == Max(xs)
  {
    if |xs| > 1 {
      QuotientSign(Max(xs) - Min(xs), (|xs| - 1) as real);
    }
  }

  /**
   * scale / dx. On a grid of several equal points dx is 0.0 and the
   * floating-point quotient is an infinity or a NaN, which is not a real:
   * the model leaves it as the opaque `m.divZero(scale)`.
   */
  function PeakValue(m: Libm, xs: seq<real>, scale: real): real
    requires |xs| > 0
  {
    var dx := Spacing(xs);
    if dx == 0.0 then m.divZero(scale) else scale / dx
  }

  /** The value delta(x, scale, center) returns, for x read as a list. */
  function DeltaProfile(m: Libm, xs: seq<real>, scale: real, center: real): (r: seq<real>)
    ensures |r| == |xs|
  {
    if InRange(xs, center) then Zeros(|xs|)[NearestIndex(xs, center) := PeakValue(m, xs, scale)]
    else Zeros(|xs|)
  }

  /**
   * delta(x, scale, center): a zero buffer with one cell written. An empty
   * x makes min() raise inside the try, and the finally clause returns the
   * empty buffer instead, so the function never fails.
   */
  method Delta(m: Libm, x: ArrayLike, scale: real, center: real) returns (model: seq<real>)
    ensures |model| == |x.Values()|
    ensures model == DeltaProfile(m, x.Values(), scale, center)
  {
    var xs := x.Values();
    var buffer := new real[|xs|](_ => 0.0);
    if |xs| > 0 && Min(xs) <= center <= Max(xs) {
      var idx := NearestIndex(xs, center);
      var dx: real;
      if |xs| > 1 {
        dx := (Max(xs) - Min(xs)) / ((|xs| - 1) as real);
      } else {
        dx := 1.0;
      }
      if dx == 0.0 {
        buffer[idx] := m.divZero(scale);
      } else {
        buffer[idx] := scale / dx;
      }
    }
    model := buffer[..];
  }

  /**
   * Where the single non-zero entry goes: at the first index nearest to the
   * centre when the centre is in range, nowhere otherwise.
   */
  lemma DeltaPlacement(m: Libm, xs: seq<real>, scale: real, center: real, k: int)
    requires IsFirstNearest(xs, center, k)
    ensures InRange(xs, center) ==> DeltaProfile(m, xs, scale, center)[k] == PeakValue(m, xs, scale)
    ensures InRange(xs, center) ==>
      forall i :: 0 <= i < |xs| && i != k ==> DeltaProfile(m, xs, scale, center)[i] == 0.0
    ensures !InRange(xs, center) ==> DeltaProfile(m, xs, scale, center) == Zeros(|xs|)
  {
    if InRange(xs, center) {
      FirstNearestUnique(xs, center, k, NearestIndex(xs, center));
    }
  }

  /** Outside [min(x), max(x)], or on an empty grid, the result is all zeros. */
  lemma DeltaOutOfRange(m: Libm, xs: seq<real>, scale: real, center: real)
    requires |xs| == 0 || center < Min(xs) || center > Max(xs)
    ensures DeltaProfile(m, xs, scale, center) == Zeros(|xs|)
    ensures forall i :: 0 <= i < |xs| ==> DeltaProfile(m, xs, scale, center)[i] == 0.0
  {
  }

  /** dx spreads the range of the grid evenly over its len − 1 intervals; one point gives dx = 1. */
  lemma SpacingFormula(xs: seq<real>)
    requires |xs| > 0
    ensures |xs| == 1 ==> Spacing(xs) == 1.0
    ensures |xs| > 1 ==> Spacing(xs) * ((|xs| - 1) as real) == Max(xs) - Min(xs)
  {
  }

  /**
   * The written value is scale / dx, so the peak times the spacing, its area
   * on the grid, is the scale ("integrated intensity").
   */
  lemma PeakArea(m: Libm, xs: seq<real>, scale: real)
    requires |xs| > 0 && Spacing(xs) != 0.0
    ensures PeakValue(m, xs, scale) * Spacing(xs) == scale
  {
  }

  /** The entries of a profile sum to the peak when the centre is in range, and to 0 otherwise. */
  lemma DeltaSum(m: Libm, xs: seq<real>, scale: real, center: real)
    ensures InRange(xs, center) ==> Sum(DeltaProfile(m, xs, scale, center)) == PeakValue(m, xs, scale)
    ensures !InRange(xs, center) ==> Sum(DeltaProfile(m, xs, scale, center)) == 0.0
  {
    var r := DeltaProfile(m, xs, scale, center);
    if InRange(xs, center) {
      SumOfSpike(r, NearestIndex(xs, center));
    } else {
      SumOfZeros(|xs|);
    }
  }

  lemma SumOfZeros(n: nat)
    ensures Sum(Zeros(n)) == 0.0
  {
    if n > 0 {
      assert Zeros(n)[..n - 1] == Zeros(n - 1);
      SumOfZeros(n - 1);
    }
  }

  /** A sequence that is zero except at index k sums to its entry at k. */
  lemma {:induction false} SumOfSpike(s: seq<real>, k: nat)
    requires k < |s|
    requires forall i :: 0 <= i < |s| && i != k ==> s[i] == 0.0
    ensures Sum(s) == s[k]
  {
    var n := |s| - 1;
    var p := s[..n];
    if k == n {
      assert forall i :: 0 <= i < |p| ==> p[i] == 0.0;
      assert p == Zeros(n);
      SumOfZeros(n);
    } else {
      assert p[k] == s[k];
      SumOfSpike(p, k);
    }
  }

  /** A bare number x is a one-point grid: scale at x == center, 0 elsewhere. */
  lemma DeltaOfScalar(m: Libm, v: real, scale: real, center: real)
    ensures DeltaProfile(m, Scalar(v).Values(), scale, center) == if center == v then [scale] else [0.0]
  {
    var xs := Scalar(v).Values();
    assert Min(xs) == v && Max(xs) == v;
    if center == v {
      assert IsFirstNearest(xs, center, 0);
      DeltaPlacement(m, xs, scale, center, 0);
    }
  }

  /**
   * delta applied to an x that np.asarray has already converted. A bare
   * number has become a 0-d array, which is neither a float nor an int, so it
   * is not wrapped into a list; min() cannot iterate it and raises inside the
   * try, and the finally clause returns the zero buffer np.zeros(1).
   */
  function DeltaOfArray(m: Libm, x: ArrayLike, scale: real, center: real): (r: seq<real>)
    ensures |r| == |x.Values()|
  {
    match x
    case Scalar(_) => Zeros(1)
    case Items(items) => DeltaProfile(m, items, scale, center)
  }

  /** delta([0, 1, 2], 1, 0) == [1, 0, 0] and delta([0, 1, 2, 3, 4], 5, 2) == [0, 0, 5, 0, 0] */
  lemma DeltaKnownValues(m: Libm)
    ensures DeltaProfile(m, [0.0, 1.0, 2.0], 1.0, 0.0) == [1.0, 0.0, 0.0]
    ensures DeltaProfile(m, [0.0, 1.0, 2.0, 3.0, 4.0], 5.0, 2.0) == [0.0, 0.0, 5.0, 0.0, 0.0]
  {
    var a := [0.0, 1.0, 2.0];
    assert Min(a) == 0.0 && Max(a) == 2.0 by {
      assert a[..2] == [0.0, 1.0] && [0.0, 1.0][..1] == [0.0];
    }
    assert IsFirstNearest(a, 0.0, 0);
    DeltaPlacement(m, a, 1.0, 0.0, 0);
    assert Spacing(a) == 1.0;

    var b := [0.0, 1.0, 2.0, 3.0, 4.0];
    assert Min(b) == 0.0 && Max(b) == 4.0 by {
      assert b[..4] == [0.0, 1.0, 2.0, 3.0];
      assert b[..4][..3] == [0.0, 1.0, 2.0];
      assert b[..4][..3][..2] == [0.0, 1.0];
      assert b[..4][..3][..2][..1] == [0.0];
    }
    assert IsFirstNearest(b, 2.0, 2);
    DeltaPlacement(m, b, 5.0, 2.0, 2);
    assert Spacing(b) == 1.0;
  }

  /** delta is linear in scale, on any grid whose spacing is not zero. */
  lemma DeltaScaleLinear(m: Libm, xs: seq<real>, k: real, scale: real, center: real)
    requires |xs| <= 1 || Min(xs) < Max(xs)
    ensures DeltaProfile(m, xs, k * scale, center) == Scaled(k, DeltaProfile(m, xs, scale, center))
  {
    var n := |xs|;
    if InRange(xs, center) {
      SpacingSign(xs);
      var i := NearestIndex(xs, center);
      assert 0 <= i < n;
      var dx := Spacing(xs);
      assert dx != 0.0;
      assert DeltaProfile(m, xs, k * scale, center) == Zeros(n)[i := (k * scale) / dx];
      assert DeltaProfile(m, xs, scale, center) == Zeros(n)[i := scale / dx];
      ScaledSpike(k, n, i, scale, dx);
    } else {
      ScaledZeros(k, n);
    }
  }

  /** Scaling a zero buffer with one cell holding s / dx scales that cell. */
  lemma ScaledSpike(k: real, n: nat, i: nat, s: real, dx: real)
    requires i < n && dx != 0.0
    ensures Zeros(n)[i := (k * s) / dx] == Scaled(k, Zeros(n)[i := s / dx])
  {
    ScaleQuotient(k, s, dx);
    var a := Zeros(n)[i := (k * s) / dx];
    var b := Scaled(k, Zeros(n)[i := s / dx]);
    forall j | 0 <= j < n ensures a[j] == b[j] {
      if j != i {
        assert Zeros(n)[i := s / dx][j] == 0.0;
      }
    }
  }

  lemma ScaledZeros(k: real, n: nat)
    ensures Scaled(k, Zeros(n)) == Zeros(n)
  {
    var z := Scaled(k, Zeros(n));
    assert forall j :: 0 <= j < n ==> z[j] == k * 0.0;
  }
}
