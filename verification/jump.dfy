/**
 * Jump translational diffusion: one Lorentzian per q of width
 * D·q² / (1 + resTime·D·q²), Brownian at small q and bounded by 1/resTime.
 */
module JumpDiffusion {
  import opened Outcome
  import opened Special
  import opened Grids
  import opened LorentzianShape
  import opened Spectra
  import BrownianDiffusion

  /** 1 + resTime·D·q², at least 1 for valid parameters */
  function Denominator(D: real, resTime: real, q: real): (d: real)
    requires D > 0.0 && resTime >= 0.0
    ensures d >= 1.0
  {
    SqNonNegative(q);
    var t := resTime * D;
    assert t >= 0.0;
    var s := Sq(q);
    assert t * s >= 0.0;
    1.0 + t * s
  }

  /** D·q² / (1 + resTime·D·q²) */
  function Width(D: real, resTime: real, q: real): real
    requires D > 0.0 && resTime >= 0.0
  {
    D * Sq(q) / Denominator(D, resTime, q)
  }

  /** hwhmJumpTranslationalDiffusion(q, D, resTime): D is checked first, then resTime. */
  function Hwhm(q: seq<real>, D: real, resTime: real): (r: Result<Components<seq<real>, seq<real>>>)
    ensures r.Ok? <==> D > 0.0 && resTime >= 0.0
    ensures D <= 0.0 ==> r == Err(ValueError(Diffusion))
    ensures D > 0.0 && resTime < 0.0 ==> r == Err(ValueError(ResidenceTime))
    ensures r.Ok? ==> SingleLine(r.value, |q|)
    ensures r.Ok? ==> forall i :: 0 <= i < |q| ==> r.value.hwhm[i] == Width(D, resTime, q[i])
  {
    if D <= 0.0 then Err(ValueError(Diffusion))
    else if resTime < 0.0 then Err(ValueError(ResidenceTime))
    else Ok(Components(seq(|q|, i requires 0 <= i < |q| => Width(D, resTime, q[i])), Zeros(|q|), Ones(|q|)))
  }

  /** With resTime = 0 the model is Brownian diffusion: the widths are D·q². */
  lemma ZeroResidenceIsBrownian(q: seq<real>, D: real)
    requires D > 0.0
    ensures Hwhm(q, D, 0.0) == BrownianDiffusion.Hwhm(q, D)
  {
    forall i | 0 <= i < |q| ensures Width(D, 0.0, q[i]) == BrownianDiffusion.Width(D, q[i]) {
      assert Denominator(D, 0.0, q[i]) == 1.0;
    }
    assert Hwhm(q, D, 0.0).value.hwhm == BrownianDiffusion.Hwhm(q, D).value.hwhm;
  }

  /** The width lies in [0, D·q²], and below 1/resTime when resTime > 0. */
  lemma WidthBounds(D: real, resTime: real, q: real)
    requires D > 0.0 && resTime >= 0.0
    ensures 0.0 <= Width(D, resTime, q) <= BrownianDiffusion.Width(D, q)
    ensures resTime > 0.0 ==> Width(D, resTime, q) < 1.0 / resTime
  {
    BrownianDiffusion.WidthSign(D, q);
    var b := D * Sq(q);
    var d := Denominator(D, resTime, q);
    var h := Width(D, resTime, q);
    assert h * d == b;
    QuotientSign(b, d);
    assert h <= b by {
      calc {
        h;
        h * 1.0;
      <= h * d;
        b;
      }
    }
    if resTime > 0.0 {
      assert d == 1.0 + resTime * b;
      assert h * resTime < 1.0 by {
        calc {
          h * resTime * d;
          resTime * b;
        <  d;
        }
      }
      calc {
        h;
        (h * resTime) * (1.0 / resTime);
      < 1.0 * (1.0 / resTime);
      }
    }
  }

  /** hwhmJumpTranslationalDiffusion([1, 2], 0.5, 1.5) gives widths [2/7, 1/2], eisf [0, 0] and qisf [1, 1]. */
  lemma HwhmKnownValues()
    ensures Hwhm([1.0, 2.0], 0.5, 1.5) == Ok(Components([2.0 / 7.0, 0.5], [0.0, 0.0], [1.0, 1.0]))
  {
    var r := Hwhm([1.0, 2.0], 0.5, 1.5);
    assert Denominator(0.5, 1.5, 1.0) == 1.75;
    assert Denominator(0.5, 1.5, 2.0) == 4.0;
    assert r.value.hwhm == [2.0 / 7.0, 0.5];
    assert r.value.eisf == [0.0, 0.0];
    assert r.value.qisf == [1.0, 1.0];
  }

  /**
   * sqwJumpTranslationalDiffusion(w, q, scale, center, D, resTime): row i is
   * the Lorentzian of the i-th jump width, and a single q gives a flat spectrum.
   */
  method Sqw(m: Libm, w: seq<real>, q: seq<real>, scale: real, center: real, D: real, resTime: real)
    returns (r: Result<Spectrum>)
    ensures r.Ok? <==> D > 0.0 && resTime >= 0.0
    ensures D <= 0.0 ==> r == Err(ValueError(Diffusion))
    ensures D > 0.0 && resTime < 0.0 ==> r == Err(ValueError(ResidenceTime))
    ensures r.Ok? ==> Shaped(r.value, |q|, |w|)
    ensures r.Ok? ==> forall i :: 0 <= i < |q| ==>
      RowsOf(r.value)[i] == Lorentzian(m, w, scale, center, Width(D, resTime, q[i]))
  {
    var c :- Hwhm(q, D, resTime);
    var rows := LorentzianRows(m, w, c.hwhm, scale, center);
    RowsOfReshape(rows, |w|);
    r := Ok(Reshape(rows));
  }
}
