/**
 * The Gaussian line shape, normalised to unit area for unit scale, falling
 * back to the discrete delta when its width parameter is zero.
 */
module GaussianShape {
  import opened Special
  import opened Grids
  import opened DeltaShape

  /** σ·sqrt(2π), never zero for a non-zero σ */
  function Norm(m: Libm, sigma: real): (d: real)
    requires sigma != 0.0
    ensures d != 0.0
  {
    sigma * m.sqrt(2.0 * m.pi)
  }

  /** −(x − center)² / (2σ²), the exponent */
  function Exponent(x: real, center: real, sigma: real): real
    requires sigma != 0.0
  {
    SqPositive(sigma);
    -Sq(x - center) / (2.0 * Sq(sigma))
  }

  /** scale·exp(−(x − center)² / (2σ²)) / (σ·sqrt(2π)), for a non-zero σ */
  function GaussValue(m: Libm, x: real, scale: real, center: real, sigma: real): real
    requires sigma != 0.0
  {
    scale * m.exp(Exponent(x, center, sigma)) / Norm(m, sigma)
  }

  /** gaussian(x, scale, center, sigma) */
  function Gaussian(m: Libm, w: seq<real>, scale: real, center: real, sigma: real): (r: seq<real>)
    ensures |r| == |w|
  {
    if sigma == 0.0 then DeltaProfile(m, w, scale, center)
    else seq(|w|, i requires 0 <= i < |w| => GaussValue(m, w[i], scale, center, sigma))
  }

  /** A zero σ gives exactly delta(x, scale, center). */
  lemma GaussianZeroWidth(m: Libm, w: seq<real>, scale: real, center: real)
    ensures Gaussian(m, w, scale, center, 0.0) == DeltaProfile(m, w, scale, center)
  {
  }

  /** Every value v at x solves v·σ·sqrt(2π) == scale·exp(−(x − center)²/(2σ²)). */
  lemma GaussValueEquation(m: Libm, x: real, scale: real, center: real, sigma: real)
    requires sigma != 0.0
    ensures GaussValue(m, x, scale, center, sigma) * Norm(m, sigma) == scale * m.exp(Exponent(x, center, sigma))
  {
    var d := Norm(m, sigma);
    var e := scale * m.exp(Exponent(x, center, sigma));
    calc {
      GaussValue(m, x, scale, center, sigma) * d;
      e * (1.0 / d) * d;
      e * (d * (1.0 / d));
    }
  }

  /** The line is symmetric about its centre. */
  lemma GaussianSymmetric(m: Libm, scale: real, center: real, sigma: real, d: real)
    requires sigma != 0.0
    ensures GaussValue(m, center + d, scale, center, sigma) == GaussValue(m, center - d, scale, center, sigma)
  {
    assert Sq(center + d - center) == Sq(center - d - center) by {
      assert center + d - center == -(center - d - center);
    }
  }

  /** The width enters squared in the exponent but not in the norm: −σ gives the negated line. */
  lemma GaussianOddInSigma(m: Libm, x: real, scale: real, center: real, sigma: real)
    requires sigma != 0.0
    ensures GaussValue(m, x, scale, center, -sigma) == -GaussValue(m, x, scale, center, sigma)
  {
    assert Sq(-sigma) == Sq(sigma);
    var e := scale * m.exp(Exponent(x, center, sigma));
    assert Norm(m, -sigma) == -Norm(m, sigma);
    var d := Norm(m, sigma);
    calc {
      GaussValue(m, x, scale, center, -sigma);
      e / (-d);
      -(e / d);
    }
  }

  /** The value at the centre is scale / (σ·sqrt(2π)), the height Mantid quotes. */
  lemma GaussianPeak(m: Libm, scale: real, center: real, sigma: real)
    requires Sound(m) && sigma != 0.0
    ensures GaussValue(m, center, scale, center, sigma) == scale / (sigma * m.sqrt(2.0 * m.pi))
  {
    SqPositive(sigma);
    assert Sq(center - center) == 0.0;
    assert Exponent(center, center, sigma) == 0.0;
  }

  /** On the one-point grid [center] the line is [scale / (σ·sqrt(2π))]; gaussian(1, 1, 1, 1) ≈ 0.399. */
  lemma GaussianAtCenter(m: Libm, scale: real, center: real, sigma: real)
    requires Sound(m) && sigma != 0.0
    ensures Gaussian(m, [center], scale, center, sigma) == [scale / (sigma * m.sqrt(2.0 * m.pi))]
  {
    GaussianPeak(m, scale, center, sigma);
  }

  /** A positive scale and a positive σ give a strictly positive line. */
  lemma GaussianPositive(m: Libm, w: seq<real>, scale: real, center: real, sigma: real)
    requires scale > 0.0 && sigma > 0.0
    ensures forall i :: 0 <= i < |w| ==> Gaussian(m, w, scale, center, sigma)[i] > 0.0
  {
    forall i | 0 <= i < |w| ensures Gaussian(m, w, scale, center, sigma)[i] > 0.0 {
      GaussValuePositive(m, w[i], scale, center, sigma);
    }
  }

  lemma GaussValuePositive(m: Libm, x: real, scale: real, center: real, sigma: real)
    requires scale > 0.0 && sigma > 0.0
    ensures GaussValue(m, x, scale, center, sigma) > 0.0
  {
    var r: real := m.sqrt(2.0 * m.pi);
    var d := Norm(m, sigma);
    assert d > 0.0 by {
      assert d == sigma * r;
    }
    var e: real := m.exp(Exponent(x, center, sigma));
    var t := scale * e;
    assert t > 0.0;
    assert t / d > 0.0;
  }

  /** The line is linear in scale, on any grid whose spacing is not zero. */
  lemma GaussianScaleLinear(m: Libm, w: seq<real>, k: real, scale: real, center: real, sigma: real)
    requires |w| <= 1 || Min(w) < Max(w)
    ensures Gaussian(m, w, k * scale, center, sigma) == Scaled(k, Gaussian(m, w, scale, center, sigma))
  {
    if sigma == 0.0 {
      DeltaScaleLinear(m, w, k, scale, center);
    } else {
      LineScaleLinear(m, w, k, scale, center, sigma);
    }
  }

  lemma LineScaleLinear(m: Libm, w: seq<real>, k: real, scale: real, center: real, sigma: real)
    requires sigma != 0.0
    ensures Gaussian(m, w, k * scale, center, sigma) == Scaled(k, Gaussian(m, w, scale, center, sigma))
  {
    var a := Gaussian(m, w, k * scale, center, sigma);
    var b := Scaled(k, Gaussian(m, w, scale, center, sigma));
    forall i | 0 <= i < |w| ensures a[i] == b[i] {
      GaussValueScaled(m, w[i], k, scale, center, sigma);
    }
  }

  lemma GaussValueScaled(m: Libm, x: real, k: real, scale: real, center: real, sigma: real)
    requires sigma != 0.0
    ensures GaussValue(m, x, k * scale, center, sigma) == k * GaussValue(m, x, scale, center, sigma)
  {
    var d := Norm(m, sigma);
    var e: real := m.exp(Exponent(x, center, sigma));
    calc {
      GaussValue(m, x, k * scale, center, sigma);
      k * scale * e / d;
      k * (scale * e) * (1.0 / d);
      k * (scale * e / d);
    }
  }

  /**
   * gaussian(x, ...) as written: x goes through np.asarray before the zero-width
   * fallback hands it to delta.
   */
  function GaussianAsWritten(m: Libm, x: ArrayLike, scale: real, center: real, sigma: real): (r: seq<real>)
    ensures |r| == |x.Values()|
    ensures x.Items? || sigma != 0.0 ==> r == GaussianOf(m, x, scale, center, sigma)
  {
    if sigma == 0.0 then DeltaOfArray(m, x, scale, center) else Gaussian(m, x.Values(), scale, center, sigma)
  }

  /**
   * As written, a bare x with a zero sigma gives [0] even at the centre, where
   * delta(x, scale, center) gives [scale].
   */
  lemma ScalarZeroWidthLost(m: Libm, v: real, scale: real)
    requires scale != 0.0
    ensures GaussianAsWritten(m, Scalar(v), scale, v, 0.0) == [0.0]
    ensures DeltaProfile(m, Scalar(v).Values(), scale, v) == [scale]
  {
    DeltaOfScalar(m, v, scale, v);
  }

  /** gaussian(x, ...) with a bare x read as the one-point grid [x], as delta reads it. */
  function GaussianOf(m: Libm, x: ArrayLike, scale: real, center: real, sigma: real): (r: seq<real>)
    ensures |r| == |x.Values()|
  {
    Gaussian(m, x.Values(), scale, center, sigma)
  }

  /** With a zero sigma, a bare x or a list gives what delta gives for it. */
  lemma GaussianOfZeroWidth(m: Libm, x: ArrayLike, scale: real, center: real)
    ensures GaussianOf(m, x, scale, center, 0.0) == DeltaProfile(m, x.Values(), scale, center)
    ensures x.Scalar? ==> GaussianOf(m, x, scale, center, 0.0) == if center == x.v then [scale] else [0.0]
  {
    if x.Scalar? {
      DeltaOfScalar(m, x.v, scale, center);
    }
  }
}
