/** Brownian translational diffusion: one Lorentzian of width D·q² per q. */
module BrownianDiffusion {
  import opened Outcome
  import opened Special
  import opened Grids
  import opened LorentzianShape
  import opened Spectra

  /** D·q² */
  function Width(D: real, q: real): real {
    D * Sq(q)
  }

  /** hwhmBrownianTranslationalDiffusion(q, D) */
  function Hwhm(q: seq<real>, D: real): (r: Result<Components<seq<real>, seq<real>>>)
    ensures r.Ok? <==> D > 0.0
    ensures r.Err? ==> r.error == ValueError(Diffusion)
    ensures r.Ok? ==> SingleLine(r.value, |q|)
    ensures r.Ok? ==> forall i :: 0 <= i < |q| ==> r.value.hwhm[i] == Width(D, q[i])
  {
    if D > 0.0 then Ok(Components(seq(|q|, i requires 0 <= i < |q| => Width(D, q[i])), Zeros(|q|), Ones(|q|)))
    else Err(ValueError(Diffusion))
  }

  /** The widths are never negative for a valid D, and zero exactly at q = 0. */
  lemma WidthSign(D: real, q: real)
    requires D > 0.0
    ensures Width(D, q) >= 0.0
    ensures Width(D, q) == 0.0 <==> q == 0.0
  {
    SqNonNegative(q);
    if q != 0.0 {
      SqPositive(q);
      var s := Sq(q);
      assert D * s > 0.0;
    }
  }

  /** hwhmBrownianTranslationalDiffusion([1, 2], 1) gives widths [1, 4], eisf [0, 0] and qisf [1, 1]. */
  lemma HwhmKnownValues()
    ensures Hwhm([1.0, 2.0], 1.0) == Ok(Components([1.0, 4.0], [0.0, 0.0], [1.0, 1.0]))
  {
    var r := Hwhm([1.0, 2.0], 1.0);
    assert r.value.hwhm == [1.0, 4.0];
    assert r.value.eisf == [0.0, 0.0];
    assert r.value.qisf == [1.0, 1.0];
  }

  /**
   * sqwBrownianTranslationalDiffusion(w, q, scale, center, D): row i is the
   * Lorentzian of width D·q[i]², and a single q gives a flat spectrum.
   */
  method Sqw(m: Libm, w: seq<real>, q: seq<real>, scale: real, center: real, D: real) returns (r: Result<Spectrum>)
    ensures r.Ok? <==> D > 0.0
    ensures r.Err? ==> r.error == ValueError(Diffusion)
    ensures r.Ok? ==> Shaped(r.value, |q|, |w|)
    ensures r.Ok? ==> forall i :: 0 <= i < |q| ==>
      RowsOf(r.value)[i] == Lorentzian(m, w, scale, center, Width(D, q[i]))
  {
    var c :- Hwhm(q, D);
    var rows := LorentzianRows(m, w, c.hwhm, scale, center);
    RowsOfReshape(rows, |w|);
    r := Ok(Reshape(rows));
  }
}
