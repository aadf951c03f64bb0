/**
 * Isotropic rotational diffusion on a sphere: an elastic line of weight
 * j0(q·radius)² and five Lorentzians of widths l(l+1)·DR weighted by
 * (2l+1)·jl(q·radius)², the series truncated at six terms.
 */
module RotationalDiffusion {
  import opened Outcome
  import opened Special
  import opened Grids
  import opened DeltaShape
  import opened Spectra

  /** The number of terms kept in the series. */
  const Terms: nat := 6

  /** arg = q·radius */
  function Args(q: seq<real>, radius: real): (r: seq<real>)
    ensures |r| == |q|
  {
    seq(|q|, k requires 0 <= k < |q| => q[k] * radius)
  }

  /** jl(arg), with the arg = 0 values j0 = 1 and jl = 0 (l ≥ 1) written in explicitly */
  function Bessel(m: Libm, l: nat, arg: real): real {
    if arg == 0.0 then (if l == 0 then 1.0 else 0.0) else m.sphJn(l, arg)
  }

  /** l(l+1)·DR */
  function WidthAt(l: nat, DR: real): real {
    (l * (l + 1)) as real * DR
  }

  /** (2l+1)·j², the weight of the l-th Lorentzian for jl = j */
  function Weight(l: nat, j: real): real {
    (2 * l + 1) as real * Sq(j)
  }

  /** 0 for l = 0, (2l+1)·jl(arg)² otherwise */
  function QisfAt(m: Libm, l: nat, arg: real): real {
    if l == 0 then 0.0 else Weight(l, Bessel(m, l, arg))
  }

  /** The (q.size, 6) widths: every row is [l(l+1)·DR for l < 6]. */
  function Widths(n: nat, DR: real): (r: seq<seq<real>>)
    ensures |r| == n && forall k :: 0 <= k < n ==> |r[k]| == Terms
  {
    seq(n, k => seq(Terms, l requires 0 <= l < Terms => WidthAt(l, DR)))
  }

  /** j0(q·radius)² per q */
  function Eisf(m: Libm, q: seq<real>, radius: real): (r: seq<real>)
    ensures |r| == |q|
  {
    seq(|q|, k requires 0 <= k < |q| => Sq(Bessel(m, 0, Args(q, radius)[k])))
  }

  /** The (q.size, 6) quasi-elastic weights. */
  function Qisf(m: Libm, q: seq<real>, radius: real): (r: seq<seq<real>>)
    ensures |r| == |q| && forall k :: 0 <= k < |q| ==> |r[k]| == Terms
  {
    seq(|q|, k requires 0 <= k < |q| => seq(Terms, l requires 0 <= l < Terms => QisfAt(m, l, Args(q, radius)[k])))
  }

  /**
   * hwhmIsotropicRotationalDiffusion(q, radius, DR): radius is checked
   * first, then DR; jl, hwhm and qisf are filled column by column.
   */
  method Hwhm(m: Libm, q: seq<real>, radius: real, DR: real)
    returns (r: Result<Components<seq<seq<real>>, seq<seq<real>>>>)
    ensures r.Ok? <==> radius > 0.0 && DR > 0.0
    ensures radius <= 0.0 ==> r == Err(ValueError(Radius))
    ensures radius > 0.0 && DR <= 0.0 ==> r == Err(ValueError(RotationalDiffusion))
    ensures r.Ok? ==> r.value == Components(Widths(|q|, DR), Eisf(m, q, radius), Qisf(m, q, radius))
  {
    if radius <= 0.0 {
      return Err(ValueError(Radius));
    }
    if DR <= 0.0 {
      return Err(ValueError(RotationalDiffusion));
    }
    var n := |q|;
    var qisf := new real[n, Terms]((_, _) => 0.0);
    var hwhm := new real[n, Terms]((_, _) => 0.0);
    var jl := new real[n, Terms]((_, _) => 0.0);
    var arg := Args(q, radius);
    for i := 0 to Terms
      modifies jl, hwhm
      invariant forall k, l :: 0 <= k < n && 0 <= l < i ==> jl[k, l] == Bessel(m, l, arg[k])
      invariant forall k, l :: 0 <= k < n && 0 <= l < i ==> hwhm[k, l] == WidthAt(l, DR)
    {
      SetColumn(jl, i, seq(n, k requires 0 <= k < n => m.sphJn(i, arg[k])));
      SetColumn(hwhm, i, seq(n, _ => (i * (i + 1)) as real * DR));
      // the arg = 0 fix-up
      SetColumnWhereZero(jl, i, arg, if i == 0 then 1.0 else 0.0);
    }
    var eisf := seq(n, k requires 0 <= k < n reads jl => Sq(jl[k, 0]));
    for i := 1 to Terms
      modifies qisf
      invariant forall k, l :: 0 <= k < n && 0 <= l < Terms ==> jl[k, l] == Bessel(m, l, arg[k])
      invariant forall k, l :: 0 <= k < n && 0 <= l < i ==> qisf[k, l] == QisfAt(m, l, arg[k])
    {
      var col := Column(jl, i);
      SetColumn(qisf, i, seq(n, k requires 0 <= k < n => Weight(i, col[k])));
    }
    RowsAgree(hwhm, Widths(n, DR));
    RowsAgree(qisf, Qisf(m, q, radius));
    r := Ok(Components(Rows(hwhm), eisf, Rows(qisf)));
  }

  /** Every row of widths is [0, 2, 6, 12, 20, 30]·DR. */
  lemma WidthsTable(n: nat, DR: real, k: nat)
    requires k < n
    ensures Widths(n, DR)[k] == [0.0, 2.0 * DR, 6.0 * DR, 12.0 * DR, 20.0 * DR, 30.0 * DR]
    ensures DR == 1.0 ==> Widths(n, DR)[k] == [0.0, 2.0, 6.0, 12.0, 20.0, 30.0]
  {
  }

  /** Where q·radius = 0 the whole signal is elastic: eisf = 1 and every qisf is 0. */
  lemma AtZeroArgument(m: Libm, q: seq<real>, radius: real, k: nat)
    requires k < |q| && Args(q, radius)[k] == 0.0
    ensures Eisf(m, q, radius)[k] == 1.0
    ensures forall l :: 0 <= l < Terms ==> Qisf(m, q, radius)[k][l] == 0.0
  {
    assert Sq(1.0) == 1.0;
    assert Sq(0.0) == 0.0;
    assert forall l: nat :: l < Terms ==> QisfAt(m, l, 0.0) == 0.0 by {
      forall l: nat | l < Terms ensures QisfAt(m, l, 0.0) == 0.0 {
        if l > 0 {
          assert Weight(l, 0.0) == (2 * l + 1) as real * 0.0;
        }
      }
    }
  }

  /** The weights are never negative, and the l = 0 column is zero. */
  lemma QisfNonNegative(m: Libm, q: seq<real>, radius: real, k: nat)
    requires k < |q|
    ensures Eisf(m, q, radius)[k] >= 0.0
    ensures Qisf(m, q, radius)[k][0] == 0.0
    ensures forall l :: 0 <= l < Terms ==> Qisf(m, q, radius)[k][l] >= 0.0
  {
    var a := Args(q, radius)[k];
    SqNonNegative(Bessel(m, 0, a));
    forall l: nat | l < Terms ensures QisfAt(m, l, a) >= 0.0 {
      if l > 0 {
        var j := Bessel(m, l, a);
        SqNonNegative(j);
        var s := Sq(j);
        assert (2 * l + 1) as real * s >= 0.0;
      }
    }
  }

  /**
   * Row k of the spectrum: eisf[k]·delta + Σ_{l=1..5} qisf[k, l]·lorentzian(hwhm[k, l]).
   */
  function Row(m: Libm, w: seq<real>, q: seq<real>, scale: real, center: real, radius: real, DR: real, k: nat): (r: seq<real>)
    requires k < |q|
    ensures |r| == |w|
  {
    QensRow(m, w, scale, center, Eisf(m, q, radius)[k], Qisf(m, q, radius)[k][1..], Widths(|q|, DR)[k][1..])
  }

  /** Where q·radius = 0 the row is the delta line alone. */
  lemma RowAtZeroArgument(m: Libm, w: seq<real>, q: seq<real>, scale: real, center: real, radius: real, DR: real, k: nat)
    requires k < |q| && Args(q, radius)[k] == 0.0
    ensures Row(m, w, q, scale, center, radius, DR, k) == DeltaProfile(m, w, scale, center)
  {
    AtZeroArgument(m, q, radius, k);
    var ws := Qisf(m, q, radius)[k][1..];
    assert forall j :: 0 <= j < |ws| ==> ws[j] == Qisf(m, q, radius)[k][j + 1];
    QensRowElasticOnly(m, w, scale, center, ws, Widths(|q|, DR)[k][1..]);
  }

  /** Row k built from the provider's output: eisf[k]·delta, then qisf[k, l]·lorentzian(hwhm[k, l]) for l = 1..5. */
  method RowFromComponents(m: Libm, w: seq<real>, q: seq<real>, scale: real, center: real, radius: real, DR: real,
                           c: Components<seq<seq<real>>, seq<seq<real>>>, k: nat)
    returns (row: seq<real>)
    requires k < |q|
    requires c == Components(Widths(|q|, DR), Eisf(m, q, radius), Qisf(m, q, radius))
    ensures row == Row(m, w, q, scale, center, radius, DR, k)
  {
    row := BuildRow(m, w, scale, center, c.eisf[k], c.qisf[k][1..], c.hwhm[k][1..]);
  }

  /**
   * sqwIsotropicRotationalDiffusion(w, q, scale, center, radius, DR): row i
   * starts as eisf[i]·delta and receives qisf[i, j]·lorentzian(hwhm[i, j])
   * for j = 1..5; a single q gives a flat spectrum.
   */
  method Sqw(m: Libm, w: seq<real>, q: seq<real>, scale: real, center: real, radius: real, DR: real)
    returns (r: Result<Spectrum>)
    ensures r.Ok? <==> radius > 0.0 && DR > 0.0
    ensures radius <= 0.0 ==> r == Err(ValueError(Radius))
    ensures radius > 0.0 && DR <= 0.0 ==> r == Err(ValueError(RotationalDiffusion))
    ensures r.Ok? ==> Shaped(r.value, |q|, |w|)
    ensures r.Ok? ==> forall i :: 0 <= i < |q| ==> RowsOf(r.value)[i] == Row(m, w, q, scale, center, radius, DR, i)
  {
    var c :- Hwhm(m, q, radius, DR);
    var sqw := new seq<real>[|q|](_ => Zeros(|w|));
    for i := 0 to |q|
      invariant forall k :: 0 <= k < i ==> sqw[k] == Row(m, w, q, scale, center, radius, DR, k)
    {
      var row := RowFromComponents(m, w, q, scale, center, radius, DR, c, i);
      sqw[i] := row;
    }
    RowsOfReshape(sqw[..], |w|);
    r := Ok(Reshape(sqw[..]));
  }
}
