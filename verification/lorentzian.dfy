/**
 * The Lorentzian line shape, with no area renormalisation, falling back to
 * the discrete delta when its half width is zero.
 */
module LorentzianShape {
  import opened Special
  import opened Grids
  import opened DeltaShape

  /** (x − center)² + hwhm², never zero for a non-zero half width */
  function Denominator(x: real, center: real, hwhm: real): (d: real)
    requires hwhm != 0.0
    ensures d > 0.0
  {
    SqNonNegative(x - center);
    SqPositive(hwhm);
    Sq(x - center) + Sq(hwhm)
  }

  /** scale·hwhm / ((x − center)² + hwhm²) / π, for a non-zero half width */
  function LorentzValue(m: Libm, x: real, scale: real, center: real, hwhm: real): real
    requires hwhm != 0.0
  {
    scale * hwhm / Denominator(x, center, hwhm) / m.pi
  }

  /** lorentzian(x, scale, center, hwhm) */
  function Lorentzian(m: Libm, w: seq<real>, scale: real, center: real, hwhm: real): (r: seq<real>)
    ensures |r| == |w|
  {
    if hwhm == 0.0 then DeltaProfile(m, w, scale, center)
    else seq(|w|, i requires 0 <= i < |w| => LorentzValue(m, w[i], scale, center, hwhm))
  }

  /** A zero half width gives exactly delta(x, scale, center). */
  lemma LorentzianZeroWidth(m: Libm, w: seq<real>, scale: real, center: real)
    ensures Lorentzian(m, w, scale, center, 0.0) == DeltaProfile(m, w, scale, center)
  {
  }

  /**
   * Every value v at x solves v·((x − center)² + hwhm²)·π == scale·hwhm:
   * the Lorentzian equation, free of division.
   */
  lemma LorentzianEquation(m: Libm, w: seq<real>, scale: real, center: real, hwhm: real)
    requires hwhm != 0.0
    ensures forall i :: 0 <= i < |w| ==>
      Lorentzian(m, w, scale, center, hwhm)[i] * (Denominator(w[i], center, hwhm) * m.pi) == scale * hwhm
  {
    forall i | 0 <= i < |w|
      ensures Lorentzian(m, w, scale, center, hwhm)[i] * (Denominator(w[i], center, hwhm) * m.pi) == scale * hwhm
    {
      LorentzValueEquation(m, w[i], scale, center, hwhm);
    }
  }

  lemma LorentzValueEquation(m: Libm, x: real, scale: real, center: real, hwhm: real)
    requires hwhm != 0.0
    ensures LorentzValue(m, x, scale, center, hwhm) * (Denominator(x, center, hwhm) * m.pi) == scale * hwhm
  {
    var d := Denominator(x, center, hwhm);
    var p: real := m.pi;
    calc {
      LorentzValue(m, x, scale, center, hwhm) * (d * p);
      (scale * hwhm) * (1.0 / d) * (1.0 / p) * (d * p);
      (scale * hwhm) * (d * (1.0 / d)) * (p * (1.0 / p));
    }
  }

  /** The line is symmetric about its centre. */
  lemma LorentzianSymmetric(m: Libm, scale: real, center: real, hwhm: real, d: real)
    requires hwhm != 0.0
    ensures LorentzValue(m, center + d, scale, center, hwhm) == LorentzValue(m, center - d, scale, center, hwhm)
  {
    assert Sq(center + d - center) == Sq(center - d - center) by {
      assert center + d - center == -(center - d - center);
    }
  }

  /** The value at the centre is scale / (π·hwhm). */
  lemma LorentzianPeak(m: Libm, scale: real, center: real, hwhm: real)
    requires hwhm != 0.0
    ensures LorentzValue(m, center, scale, center, hwhm) == scale / (m.pi * hwhm)
  {
    var d := Denominator(center, center, hwhm);
    var p: real := m.pi;
    assert d == hwhm * hwhm by {
      assert Sq(center - center) == 0.0;
    }
    calc {
      LorentzValue(m, center, scale, center, hwhm);
      scale * hwhm / d / p;
      (scale * hwhm) * (1.0 / (hwhm * hwhm)) * (1.0 / p);
      (scale * hwhm) * ((1.0 / hwhm) * (1.0 / hwhm)) * (1.0 / p);
      scale * (hwhm * (1.0 / hwhm)) * (1.0 / hwhm) * (1.0 / p);
      scale * (1.0 / hwhm) * (1.0 / p);
      scale * (1.0 / (p * hwhm));
    }
  }

  /** On the one-point grid [center] the line is [scale / (π·hwhm)]; lorentzian(1, 1, 1, 1) == [1/π]. */
  lemma LorentzianAtCenter(m: Libm, scale: real, center: real, hwhm: real)
    requires hwhm != 0.0
    ensures Lorentzian(m, [center], scale, center, hwhm) == [scale / (m.pi * hwhm)]
  {
    LorentzianPeak(m, scale, center, hwhm);
  }

  /** A positive scale and a positive half width give a strictly positive line. */
  lemma LorentzianPositive(m: Libm, w: seq<real>, scale: real, center: real, hwhm: real)
    requires scale > 0.0 && hwhm > 0.0
    ensures forall i :: 0 <= i < |w| ==> Lorentzian(m, w, scale, center, hwhm)[i] > 0.0
  {
    forall i | 0 <= i < |w| ensures Lorentzian(m, w, scale, center, hwhm)[i] > 0.0 {
      LorentzValuePositive(m, w[i], scale, center, hwhm);
    }
  }

  lemma LorentzValuePositive(m: Libm, x: real, scale: real, center: real, hwhm: real)
    requires scale > 0.0 && hwhm > 0.0
    ensures LorentzValue(m, x, scale, center, hwhm) > 0.0
  {
    var d := Denominator(x, center, hwhm);
    var t := scale * hwhm;
    assert t > 0.0;
    assert t / d > 0.0;
    assert t / d / m.pi > 0.0;
  }

  /** The line is linear in scale, on any grid whose spacing is not zero. */
  lemma LorentzianScaleLinear(m: Libm, w: seq<real>, k: real, scale: real, center: real, hwhm: real)
    requires |w| <= 1 || Min(w) < Max(w)
    ensures Lorentzian(m, w, k * scale, center, hwhm) == Scaled(k, Lorentzian(m, w, scale, center, hwhm))
  {
    if hwhm == 0.0 {
      DeltaScaleLinear(m, w, k, scale, center);
    } else {
      LineScaleLinear(m, w, k, scale, center, hwhm);
    }
  }

  lemma LineScaleLinear(m: Libm, w: seq<real>, k: real, scale: real, center: real, hwhm: real)
    requires hwhm != 0.0
    ensures Lorentzian(m, w, k * scale, center, hwhm) == Scaled(k, Lorentzian(m, w, scale, center, hwhm))
  {
    var a := Lorentzian(m, w, k * scale, center, hwhm);
    var b := Scaled(k, Lorentzian(m, w, scale, center, hwhm));
    forall i | 0 <= i < |w| ensures a[i] == b[i] {
      LorentzValueScaled(m, w[i], k, scale, center, hwhm);
    }
  }

  lemma LorentzValueScaled(m: Libm, x: real, k: real, scale: real, center: real, hwhm: real)
    requires hwhm != 0.0
    ensures LorentzValue(m, x, k * scale, center, hwhm) == k * LorentzValue(m, x, scale, center, hwhm)
  {
    var d := Denominator(x, center, hwhm);
    var p: real := m.pi;
    calc {
      LorentzValue(m, x, k * scale, center, hwhm);
      k * scale * hwhm / d / p;
      (k * (scale * hwhm)) * (1.0 / d) * (1.0 / p);
      k * ((scale * hwhm) * (1.0 / d) * (1.0 / p));
      k * (scale * hwhm / d / p);
    }
  }

  /**
   * lorentzian(x, ...) as written: x goes through np.asarray before the zero-width
   * fallback hands it to delta.
   */
  function LorentzianAsWritten(m: Libm, x: ArrayLike, scale: real, center: real, hwhm: real): (r: seq<real>)
    ensures |r| == |x.Values()|
    ensures x.Items? || hwhm != 0.0 ==> r == LorentzianOf(m, x, scale, center, hwhm)
  {
    if hwhm == 0.0 then DeltaOfArray(m, x, scale, center) else Lorentzian(m, x.Values(), scale, center, hwhm)
  }

  /**
   * As written, a bare x with a zero hwhm gives [0] even at the centre, where
   * delta(x, scale, center) gives [scale].
   */
  lemma ScalarZeroWidthLost(m: Libm, v: real, scale: real)
    requires scale != 0.0
    ensures LorentzianAsWritten(m, Scalar(v), scale, v, 0.0) == [0.0]
    ensures DeltaProfile(m, Scalar(v).Values(), scale, v) == [scale]
  {
    DeltaOfScalar(m, v, scale, v);
  }

  /** lorentzian(x, ...) with a bare x read as the one-point grid [x], as delta reads it. */
  function LorentzianOf(m: Libm, x: ArrayLike, scale: real, center: real, hwhm: real): (r: seq<real>)
    ensures |r| == |x.Values()|
  {
    Lorentzian(m, x.Values(), scale, center, hwhm)
  }

  /** With a zero hwhm, a bare x or a list gives what delta gives for it. */
  lemma LorentzianOfZeroWidth(m: Libm, x: ArrayLike, scale: real, center: real)
    ensures LorentzianOf(m, x, scale, center, 0.0) == DeltaProfile(m, x.Values(), scale, center)
    ensures x.Scalar? ==> LorentzianOf(m, x, scale, center, 0.0) == if center == x.v then [scale] else [0.0]
  {
    if x.Scalar? {
      DeltaOfScalar(m, x.v, scale, center);
    }
  }
}
