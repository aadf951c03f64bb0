/**
 * The Gaussian model in three dimensions (Volino): the particle moves in a
 * harmonic well, the elastic weight is exp(−q²⟨u²⟩) and the quasi-elastic
 * weights are the Poisson terms exp(−a)·aⁱ/i! of a = q²⟨u²⟩, the series
 * truncated at 100 terms.
 */
module GaussianModel3D {
  import opened Outcome
  import opened Special
  import opened Grids
  import opened DeltaShape
  import opened Spectra

  /** The number of terms kept in the series. */
  const Terms: nat := 100

  /** arg = q²·variance_ux */
  function Args(q: seq<real>, variance: real): (r: seq<real>)
    ensures |r| == |q|
  {
    seq(|q|, k requires 0 <= k < |q| => Sq(q[k]) * variance)
  }

  /** exp(−a)·aⁱ/i! */
  function Term(m: Libm, i: nat, a: real): real {
    m.exp(-a) * Pow(a, i) / (Factorial(i) as real)
  }

  /** The Poisson term exp(−a)·aⁱ/i! for a > 0; for a ≤ 0 the weight is all elastic. */
  function Poisson(m: Libm, i: nat, a: real): real {
    if a > 0.0 then Term(m, i, a)
    else if i == 0 then 1.0 else 0.0
  }

  /** The term as the path for several q values writes it: column 0 apart. */
  function ListTerm(m: Libm, i: nat, a: real): real {
    if i == 0 then (if a > 0.0 then m.exp(-a) else 1.0)
    else if a > 0.0 then Term(m, i, a) else 0.0
  }

  /** The single-q path and the path for several q values compute the same terms. */
  lemma PathsAgree(m: Libm, i: nat, a: real)
    ensures ListTerm(m, i, a) == Poisson(m, i, a)
  {
    if i == 0 && a > 0.0 {
      var e: real := m.exp(-a);
      assert Pow(a, 0) == 1.0 && Factorial(0) as real == 1.0;
      assert Term(m, 0, a) == e * 1.0 / 1.0;
    }
  }

  /** i·D / variance_ux */
  function Rate(i: nat, D: real, variance: real): real
    requires variance != 0.0
  {
    (i as real) * D / variance
  }

  /** The width of term i: column 0 stays 0. */
  function WidthAt(i: nat, D: real, variance: real): real
    requires variance != 0.0
  {
    if i == 0 then 0.0 else Rate(i, D, variance)
  }

  function Widths(n: nat, D: real, variance: real): (r: seq<seq<real>>)
    requires variance != 0.0
    ensures |r| == n && forall k :: 0 <= k < n ==> |r[k]| == Terms
  {
    seq(n, k => seq(Terms, i requires 0 <= i < Terms => WidthAt(i, D, variance)))
  }

  /** al[:, 0] */
  function Eisf(m: Libm, q: seq<real>, variance: real): (r: seq<real>)
    ensures |r| == |q|
  {
    seq(|q|, k requires 0 <= k < |q| => Poisson(m, 0, Args(q, variance)[k]))
  }

  /** al with column 0 set to zero */
  function Qisf(m: Libm, q: seq<real>, variance: real): (r: seq<seq<real>>)
    ensures |r| == |q| && forall k :: 0 <= k < |q| ==> |r[k]| == Terms
  {
    seq(|q|, k requires 0 <= k < |q| =>
      seq(Terms, i requires 0 <= i < Terms => if i == 0 then 0.0 else Poisson(m, i, Args(q, variance)[k])))
  }

  lemma {:induction false} PowPositive(a: real, i: nat)
    requires a > 0.0
    ensures Pow(a, i) > 0.0
  {
    if i > 0 {
      PowPositive(a, i - 1);
      var p := Pow(a, i - 1);
      assert Pow(a, i) == p * a;
    }
  }

  /** Every weight lies in [0, 1] from below: the Poisson terms are never negative. */
  lemma PoissonNonNegative(m: Libm, i: nat, a: real)
    ensures Poisson(m, i, a) >= 0.0
    ensures a > 0.0 ==> Poisson(m, i, a) > 0.0
  {
    if a > 0.0 {
      PowPositive(a, i);
      var e: real := m.exp(-a);
      var p := Pow(a, i);
      var f := Factorial(i) as real;
      assert e * p > 0.0;
      assert e * p / f > 0.0;
    }
  }

  /**
   * Successive terms differ by the factor a/(i+1), the recurrence of the
   * Poisson distribution.
   */
  lemma PoissonRecurrence(m: Libm, i: nat, a: real)
    requires a > 0.0
    ensures Poisson(m, i + 1, a) == Poisson(m, i, a) * a / ((i + 1) as real)
  {
    var e: real := m.exp(-a);
    var p := Pow(a, i);
    var f := Factorial(i) as real;
    var n := (i + 1) as real;
    assert Factorial(i + 1) == (i + 1) * Factorial(i);
    assert Factorial(i + 1) as real == n * f;
    assert Pow(a, i + 1) == p * a;
    calc {
      Poisson(m, i + 1, a);
      e * (p * a) / (n * f);
      e * (p * a) * (1.0 / (n * f));
      e * (p * a) * ((1.0 / n) * (1.0 / f));
      (e * p * (1.0 / f)) * a * (1.0 / n);
      e * p / f * a / n;
    }
  }

  /** The elastic weight is the first Poisson term: log(eisf) == −q²·variance_ux where q ≠ 0. */
  lemma EisfLog(m: Libm, q: seq<real>, variance: real, k: nat)
    requires Sound(m) && k < |q| && Args(q, variance)[k] > 0.0
    ensures Eisf(m, q, variance)[k] > 0.0
    ensures m.log(Eisf(m, q, variance)[k]) == -Args(q, variance)[k]
  {
    var a := Args(q, variance)[k];
    var e: real := m.exp(-a);
    assert Pow(a, 0) == 1.0 && Factorial(0) as real == 1.0;
    assert Eisf(m, q, variance)[k] == e * 1.0 / 1.0;
  }

  /** Where q²·variance_ux ≤ 0 all weight is elastic: eisf = 1 and qisf = 0. */
  lemma AtZeroArgument(m: Libm, q: seq<real>, variance: real, k: nat)
    requires k < |q| && Args(q, variance)[k] <= 0.0
    ensures Eisf(m, q, variance)[k] == 1.0
    ensures forall i :: 0 <= i < Terms ==> Qisf(m, q, variance)[k][i] == 0.0
  {
  }

  /** The widths are equally spaced: term i has i times the width of term 1, which is positive. */
  lemma WidthsEquallySpaced(D: real, variance: real, i: nat)
    requires variance != 0.0
    ensures WidthAt(i, D, variance) == (i as real) * WidthAt(1, D, variance)
    ensures D > 0.0 && variance > 0.0 && i > 0 ==> WidthAt(i, D, variance) > 0.0
  {
    var n := i as real;
    if i > 0 {
      calc {
        WidthAt(i, D, variance);
        n * D / variance;
        n * (1.0 * D / variance);
      }
      if D > 0.0 && variance > 0.0 {
        assert D / variance > 0.0;
        assert n * (D / variance) > 0.0;
      }
    }
  }

  /** The weights beside the elastic one, as each row of the spectrum uses them. */
  function Row(m: Libm, w: seq<real>, q: seq<real>, scale: real, center: real, D: real, variance: real, k: nat): (r: seq<real>)
    requires variance != 0.0 && k < |q|
    ensures |r| == |w|
  {
    QensRow(m, w, scale, center, Eisf(m, q, variance)[k], Qisf(m, q, variance)[k][1..], Widths(|q|, D, variance)[k][1..])
  }

  /** Where q = 0 the row is the delta line alone. */
  lemma RowAtZeroMomentum(m: Libm, w: seq<real>, q: seq<real>, scale: real, center: real, D: real, variance: real, k: nat)
    requires variance != 0.0 && k < |q| && q[k] == 0.0
    ensures Row(m, w, q, scale, center, D, variance, k) == DeltaProfile(m, w, scale, center)
  {
    assert Sq(q[k]) == 0.0;
    AtZeroArgument(m, q, variance, k);
    var ws := Qisf(m, q, variance)[k][1..];
    assert forall j :: 0 <= j < |ws| ==> ws[j] == Qisf(m, q, variance)[k][j + 1];
    QensRowElasticOnly(m, w, scale, center, ws, Widths(|q|, D, variance)[k][1..]);
  }

  /**
   * The al table of hwhmGaussianModel3D: a single q fills it term by term
   * with the a ≤ 0 case inside the loop, several q values fill column 0 and
   * then the other columns with the case inside each element.
   */
  method PoissonTable(m: Libm, arg: seq<real>) returns (al: array2<real>)
    ensures fresh(al) && al.Length0 == |arg| && al.Length1 == Terms
    ensures forall k, l :: 0 <= k < |arg| && 0 <= l < Terms ==> al[k, l] == Poisson(m, l, arg[k])
  {
    var n := |arg|;
    al := new real[n, Terms]((_, _) => 0.0);
    if n == 1 {
      for i := 0 to Terms
        modifies al
        invariant forall k, l :: 0 <= k < n && 0 <= l < i ==> al[k, l] == Poisson(m, l, arg[k])
      {
        if arg[0] > 0.0 {
          SetColumn(al, i, [Term(m, i, arg[0])]);
        } else if i == 0 {
          SetColumn(al, 0, [1.0]);
        } else {
          SetColumn(al, i, [0.0]);
        }
      }
    } else {
      SetColumn(al, 0, seq(n, k requires 0 <= k < n => if arg[k] > 0.0 then m.exp(-arg[k]) else 1.0));
      assert forall k :: 0 <= k < n ==> al[k, 0] == Poisson(m, 0, arg[k]) by {
        forall k | 0 <= k < n ensures al[k, 0] == Poisson(m, 0, arg[k]) {
          PathsAgree(m, 0, arg[k]);
        }
      }
      for i := 1 to Terms
        modifies al
        invariant forall k, l :: 0 <= k < n && 0 <= l < i ==> al[k, l] == Poisson(m, l, arg[k])
      {
        SetColumn(al, i, seq(n, k requires 0 <= k < n =>
          if arg[k] > 0.0 then Term(m, i, arg[k]) else 0.0));
      }
    }
  }

  /**
   * hwhmGaussianModel3D(q, D, variance_ux): D is checked first, then the
   * variance. A single q and several q values take different paths to al.
   */
  method Hwhm(m: Libm, q: seq<real>, D: real, variance: real)
    returns (r: Result<Components<seq<seq<real>>, seq<seq<real>>>>)
    ensures r.Ok? <==> D > 0.0 && variance > 0.0
    ensures D <= 0.0 ==> r == Err(ValueError(Diffusion))
    ensures D > 0.0 && variance <= 0.0 ==> r == Err(ValueError(Variance))
    ensures r.Ok? ==> variance > 0.0
    ensures r.Ok? ==> r.value == Components(Widths(|q|, D, variance), Eisf(m, q, variance), Qisf(m, q, variance))
  {
    if D <= 0.0 {
      return Err(ValueError(Diffusion));
    }
    if variance <= 0.0 {
      return Err(ValueError(Variance));
    }
    var n := |q|;
    var qisf := new real[n, Terms]((_, _) => 0.0);
    var hwhm := new real[n, Terms]((_, _) => 0.0);
    var arg := Args(q, variance);
    var al := PoissonTable(m, arg);
    var eisf := Column(al, 0);
    for i := 1 to Terms
      modifies hwhm, qisf
      invariant forall k, l :: 0 <= k < n && 0 <= l < Terms ==> al[k, l] == Poisson(m, l, arg[k])
      invariant forall k, l :: 0 <= k < n && 0 <= l < i ==> hwhm[k, l] == WidthAt(l, D, variance)
      invariant forall k, l :: 0 <= k < n && 0 <= l < i ==>
        qisf[k, l] == if l == 0 then 0.0 else Poisson(m, l, arg[k])
    {
      SetColumn(hwhm, i, seq(n, _ => Rate(i, D, variance)));
      SetColumn(qisf, i, Column(al, i));
    }
    RowsAgree(hwhm, Widths(n, D, variance));
    RowsAgree(qisf, Qisf(m, q, variance));
    r := Ok(Components(Rows(hwhm), eisf, Rows(qisf)));
  }

  /**
   * sqwGaussianModel3D(w, q, scale, center, D, variance_ux): row i starts
   * as eisf[i]·delta and receives qisf[i, j]·lorentzian(hwhm[i, j]) for
   * j = 1..99; a single q gives a flat spectrum.
   */
  method Sqw(m: Libm, w: seq<real>, q: seq<real>, scale: real, center: real, D: real, variance: real)
    returns (r: Result<Spectrum>)
    ensures r.Ok? <==> D > 0.0 && variance > 0.0
    ensures D <= 0.0 ==> r == Err(ValueError(Diffusion))
    ensures D > 0.0 && variance <= 0.0 ==> r == Err(ValueError(Variance))
    ensures r.Ok? ==> Shaped(r.value, |q|, |w|)
    ensures r.Ok? ==> forall i :: 0 <= i < |q| ==> RowsOf(r.value)[i] == Row(m, w, q, scale, center, D, variance, i)
  {
    var c :- Hwhm(m, q, D, variance);
    var sqw := new seq<real>[|q|](_ => Zeros(|w|));
    for i := 0 to |q|
      invariant forall k :: 0 <= k < i ==> sqw[k] == Row(m, w, q, scale, center, D, variance, k)
    {
      var row := BuildRow(m, w, scale, center, c.eisf[i], c.qisf[i][1..], c.hwhm[i][1..]);
      sqw[i] := row;
    }
    RowsOfReshape(sqw[..], |w|);
    r := Ok(Reshape(sqw[..]));
  }
}
