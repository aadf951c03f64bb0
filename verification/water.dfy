/**
 * Water after Teixeira et al.: the convolution of jump translational
 * diffusion (one Lorentzian of the jump width) with isotropic rotational
 * diffusion (an elastic line and Lorentzians of widths l(l+1)·DR). A
 * Lorentzian convolved with a Lorentzian is a Lorentzian whose width is the
 * sum of the two, and convolving with the delta leaves the jump Lorentzian.
 */
module WaterTeixeira {
  import opened Outcome
  import opened Special
  import opened Grids
  import opened DeltaShape
  import opened LorentzianShape
  import opened Spectra
  import JumpDiffusion
  import RotationalDiffusion

  /** h + widths[j] for each j: the rotational widths broadened by the jump width */
  function Shifted(h: real, widths: seq<real>): (r: seq<real>)
    ensures |r| == |widths| && forall j :: 0 <= j < |widths| ==> r[j] == h + widths[j]
  {
    seq(|widths|, j requires 0 <= j < |widths| => h + widths[j])
  }

  /**
   * eisf·lorentzian(w, scale, center, h) + Σ_j weights[j]·lorentzian(w,
   * scale, center, h + widths[j])
   */
  function Convolved(m: Libm, w: seq<real>, scale: real, center: real,
                     eisf: real, weights: seq<real>, h: real, widths: seq<real>): (r: seq<real>)
    requires |weights| == |widths|
    ensures |r| == |w|
  {
    Accumulate(Scaled(eisf, Lorentzian(m, w, scale, center, h)), weights, Lines(m, w, scale, center, Shifted(h, widths)))
  }

  /**
   * Row k of the spectrum: the rotational weights of q[k], the jump width of
   * q[k], and the rotational widths l(l+1)·DR for l = 1..5.
   */
  function Row(m: Libm, w: seq<real>, q: seq<real>, scale: real, center: real,
               D: real, resTime: real, radius: real, DR: real, k: nat): (r: seq<real>)
    requires D > 0.0 && resTime >= 0.0 && k < |q|
    ensures |r| == |w|
  {
    Convolved(m, w, scale, center,
              RotationalDiffusion.Eisf(m, q, radius)[k], RotationalDiffusion.Qisf(m, q, radius)[k][1..],
              JumpDiffusion.Width(D, resTime, q[k]), RotationalDiffusion.Widths(|q|, DR)[k][1..])
  }

  /**
   * Where q·radius = 0 the molecule does not rotate visibly: the row is the
   * jump-diffusion row alone, the Lorentzian of the jump width.
   */
  lemma RowAtZeroArgument(m: Libm, w: seq<real>, q: seq<real>, scale: real, center: real,
                          D: real, resTime: real, radius: real, DR: real, k: nat)
    requires D > 0.0 && resTime >= 0.0 && k < |q|
    requires RotationalDiffusion.Args(q, radius)[k] == 0.0
    ensures Row(m, w, q, scale, center, D, resTime, radius, DR, k)
      == Lorentzian(m, w, scale, center, JumpDiffusion.Width(D, resTime, q[k]))
  {
    RotationalDiffusion.AtZeroArgument(m, q, radius, k);
    var h := JumpDiffusion.Width(D, resTime, q[k]);
    var l := Lorentzian(m, w, scale, center, h);
    var ws := RotationalDiffusion.Qisf(m, q, radius)[k][1..];
    var widths := RotationalDiffusion.Widths(|q|, DR)[k][1..];
    assert forall j :: 0 <= j < |ws| ==> ws[j] == RotationalDiffusion.Qisf(m, q, radius)[k][j + 1];
    AccumulateZeroWeights(Scaled(1.0, l), ws, Lines(m, w, scale, center, Shifted(h, widths)));
    assert Scaled(1.0, l) == l;
  }

  /**
   * Where the jump width is zero the translation adds nothing: the row is
   * the rotational-diffusion row.
   */
  lemma RowWithoutTranslation(m: Libm, w: seq<real>, q: seq<real>, scale: real, center: real,
                              D: real, resTime: real, radius: real, DR: real, k: nat)
    requires D > 0.0 && resTime >= 0.0 && k < |q|
    requires JumpDiffusion.Width(D, resTime, q[k]) == 0.0
    ensures Row(m, w, q, scale, center, D, resTime, radius, DR, k)
      == RotationalDiffusion.Row(m, w, q, scale, center, radius, DR, k)
  {
    var widths := RotationalDiffusion.Widths(|q|, DR)[k][1..];
    LorentzianZeroWidth(m, w, scale, center);
    assert Shifted(0.0, widths) == widths;
  }

  /** The row is linear in scale, on any grid whose spacing is not zero. */
  lemma RowScaleLinear(m: Libm, w: seq<real>, q: seq<real>, c: real, scale: real, center: real,
                       D: real, resTime: real, radius: real, DR: real, k: nat)
    requires D > 0.0 && resTime >= 0.0 && k < |q|
    requires |w| <= 1 || Min(w) < Max(w)
    ensures Row(m, w, q, c * scale, center, D, resTime, radius, DR, k)
      == Scaled(c, Row(m, w, q, scale, center, D, resTime, radius, DR, k))
  {
    var eisf := RotationalDiffusion.Eisf(m, q, radius)[k];
    var weights := RotationalDiffusion.Qisf(m, q, radius)[k][1..];
    var h := JumpDiffusion.Width(D, resTime, q[k]);
    var widths := RotationalDiffusion.Widths(|q|, DR)[k][1..];
    ConvolvedScaleLinear(m, w, c, scale, center, eisf, weights, h, widths);
  }

  lemma ConvolvedScaleLinear(m: Libm, w: seq<real>, c: real, scale: real, center: real,
                             eisf: real, weights: seq<real>, h: real, widths: seq<real>)
    requires |weights| == |widths|
    requires |w| <= 1 || Min(w) < Max(w)
    ensures Convolved(m, w, c * scale, center, eisf, weights, h, widths)
      == Scaled(c, Convolved(m, w, scale, center, eisf, weights, h, widths))
  {
    var l := Lorentzian(m, w, scale, center, h);
    var e := Scaled(eisf, l);
    var shifted := Shifted(h, widths);
    var ls := Lines(m, w, scale, center, shifted);
    assert Scaled(eisf, Lorentzian(m, w, c * scale, center, h)) == Scaled(c, e) by {
      LorentzianScaleLinear(m, w, c, scale, center, h);
      ScaledCommute(eisf, c, l);
    }
    LinesScaleLinear(m, w, c, scale, center, shifted);
    AccumulateScaled(c, e, weights, ls);
  }

  /**
   * One row: eisf·lorentzian of the jump width, then each rotational
   * Lorentzian broadened by the jump width added in turn.
   */
  method BuildRow(m: Libm, w: seq<real>, scale: real, center: real,
                  eisf: real, weights: seq<real>, h: real, widths: seq<real>)
    returns (row: seq<real>)
    requires |weights| == |widths|
    ensures row == Convolved(m, w, scale, center, eisf, weights, h, widths)
  {
    var init := Scaled(eisf, Lorentzian(m, w, scale, center, h));
    row := AccumulateRow(init, weights, Lines(m, w, scale, center, Shifted(h, widths)));
  }

  /**
   * sqwWaterTeixeira(w, q, scale, center, D, resTime, radius, DR): the jump
   * parameters are checked first, then the rotational ones; row i is the
   * convolution of the two models at q[i], and a single q gives a flat spectrum.
   */
  method Sqw(m: Libm, w: seq<real>, q: seq<real>, scale: real, center: real,
             D: real, resTime: real, radius: real, DR: real)
    returns (r: Result<Spectrum>)
    ensures r.Ok? <==> D > 0.0 && resTime >= 0.0 && radius > 0.0 && DR > 0.0
    ensures D <= 0.0 ==> r == Err(ValueError(Diffusion))
    ensures D > 0.0 && resTime < 0.0 ==> r == Err(ValueError(ResidenceTime))
    ensures D > 0.0 && resTime >= 0.0 && radius <= 0.0 ==> r == Err(ValueError(Radius))
    ensures D > 0.0 && resTime >= 0.0 && radius > 0.0 && DR <= 0.0 ==> r == Err(ValueError(RotationalDiffusion))
    ensures r.Ok? ==> Shaped(r.value, |q|, |w|)
    ensures r.Ok? ==> D > 0.0 && resTime >= 0.0 && forall i :: 0 <= i < |q| ==>
      RowsOf(r.value)[i] == Row(m, w, q, scale, center, D, resTime, radius, DR, i)
  {
    var jump :- JumpDiffusion.Hwhm(q, D, resTime);
    var rot :- RotationalDiffusion.Hwhm(m, q, radius, DR);
    var sqw := new seq<real>[|q|](_ => Zeros(|w|));
    for i := 0 to |q|
      invariant forall k :: 0 <= k < i ==> sqw[k] == Row(m, w, q, scale, center, D, resTime, radius, DR, k)
    {
      var row := BuildRow(m, w, scale, center, rot.eisf[i], rot.qisf[i][1..], jump.hwhm[i], rot.hwhm[i][1..]);
      sqw[i] := row;
    }
    RowsOfReshape(sqw[..], |w|);
    r := Ok(Reshape(sqw[..]));
  }
}
