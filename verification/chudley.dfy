/**
 * Chudley-Elliott jump diffusion on a lattice of jump length L: one
 * Lorentzian per q of width 6·D·(1 − sinc(q·L/π)) / L².
 */
module ChudleyElliott {
  import opened Outcome
  import opened Special
  import opened Grids
  import opened LorentzianShape
  import opened Spectra

  /** 6·D·(1 − sinc(q·L/π)) / L², for a non-zero L; np.sinc(x) is sin(πx)/(πx). */
  function Width(m: Libm, D: real, L: real, q: real): real
    requires L != 0.0
  {
    SqPositive(L);
    6.0 * D * (1.0 - m.sinc(q * L / m.pi)) / Sq(L)
  }

  /** hwhmChudleyElliottDiffusion(q, D, L): D is checked first, then L. */
  function Hwhm(m: Libm, q: seq<real>, D: real, L: real): (r: Result<Components<seq<real>, seq<real>>>)
    ensures r.Ok? <==> D > 0.0 && L > 0.0
    ensures D <= 0.0 ==> r == Err(ValueError(Diffusion))
    ensures D > 0.0 && L <= 0.0 ==> r == Err(ValueError(JumpLength))
    ensures r.Ok? ==> SingleLine(r.value, |q|)
    ensures r.Ok? ==> forall i :: 0 <= i < |q| ==> r.value.hwhm[i] == Width(m, D, L, q[i])
  {
    if D <= 0.0 then Err(ValueError(Diffusion))
    else if L <= 0.0 then Err(ValueError(JumpLength))
    else Ok(Components(seq(|q|, i requires 0 <= i < |q| => Width(m, D, L, q[i])), Zeros(|q|), Ones(|q|)))
  }

  /** With sinc(0) = 1 there is no broadening at q = 0. */
  lemma WidthAtZero(m: Libm, D: real, L: real)
    requires Sound(m) && L != 0.0
    ensures Width(m, D, L, 0.0) == 0.0
  {
    assert 0.0 * L / m.pi == 0.0;
    assert m.sinc(0.0 * L / m.pi) == 1.0;
    SqPositive(L);
    var l := Sq(L);
    assert 6.0 * D * (1.0 - 1.0) == 0.0;
    assert 0.0 / l == 0.0;
  }

  /**
   * Every width w solves w·L² == 6·D·(1 − sinc(q·L/π)); in particular it has
   * the sign of 1 − sinc(q·L/π).
   */
  lemma WidthEquation(m: Libm, D: real, L: real, q: real)
    requires D > 0.0 && L != 0.0
    ensures Width(m, D, L, q) * Sq(L) == 6.0 * D * (1.0 - m.sinc(q * L / m.pi))
    ensures Width(m, D, L, q) > 0.0 <==> m.sinc(q * L / m.pi) < 1.0
  {
    SqPositive(L);
    var l := Sq(L);
    var n := 6.0 * D * (1.0 - m.sinc(q * L / m.pi));
    var h := Width(m, D, L, q);
    assert h == n / l;
    assert h * l == n;
    assert n > 0.0 <==> m.sinc(q * L / m.pi) < 1.0 by {
      var s := 1.0 - m.sinc(q * L / m.pi);
      assert n == (6.0 * D) * s;
      assert 6.0 * D > 0.0;
    }
    assert h > 0.0 <==> n > 0.0 by {
      if h > 0.0 {
        assert h * l > 0.0;
      }
      if n > 0.0 {
        QuotientSign(n, l);
      }
    }
  }

  /**
   * sqwChudleyElliottDiffusion(w, q, scale, center, D, L): row i is the
   * Lorentzian of the i-th width, and a single q gives a flat spectrum.
   */
  method Sqw(m: Libm, w: seq<real>, q: seq<real>, scale: real, center: real, D: real, L: real)
    returns (r: Result<Spectrum>)
    ensures r.Ok? <==> D > 0.0 && L > 0.0
    ensures D <= 0.0 ==> r == Err(ValueError(Diffusion))
    ensures D > 0.0 && L <= 0.0 ==> r == Err(ValueError(JumpLength))
    ensures r.Ok? ==> Shaped(r.value, |q|, |w|)
    ensures r.Ok? ==> forall i :: 0 <= i < |q| ==>
      RowsOf(r.value)[i] == Lorentzian(m, w, scale, center, Width(m, D, L, q[i]))
  {
    var c :- Hwhm(m, q, D, L);
    var rows := LorentzianRows(m, w, c.hwhm, scale, center);
    RowsOfReshape(rows, |w|);
    r := Ok(Reshape(rows));
  }
}
