/**
 * A fraction A0 of immobile atoms (a delta line) and 1 − A0 of atoms in
 * Brownian diffusion (a Lorentzian), with A0 and hwhm given per q.
 */
module DeltaLorentz {
  import opened Outcome
  import opened Special
  import opened Grids
  import opened DeltaShape
  import opened LorentzianShape
  import opened Spectra

  /** The proportion of immobile atoms must lie in [0, 1]. */
  predicate Fraction(a: real) {
    0.0 <= a <= 1.0
  }

  /** A0·delta(w, scale, center) + (1 − A0)·lorentzian(w, scale, center, hwhm) */
  function Row(m: Libm, w: seq<real>, scale: real, center: real, a0: real, hwhm: real): (r: seq<real>)
    ensures |r| == |w|
  {
    QensRow(m, w, scale, center, a0, [1.0 - a0], [hwhm])
  }

  /** The row is the mixture of the two lines: A0·delta, then + (1 − A0)·lorentzian. */
  lemma RowMixture(m: Libm, w: seq<real>, scale: real, center: real, a0: real, hwhm: real)
    ensures Row(m, w, scale, center, a0, hwhm)
      == AddScaled(Scaled(a0, DeltaProfile(m, w, scale, center)), 1.0 - a0, Lorentzian(m, w, scale, center, hwhm))
  {
    var l := Lorentzian(m, w, scale, center, hwhm);
    assert Lines(m, w, scale, center, [hwhm]) == [l];
    AccumulateOne(Scaled(a0, DeltaProfile(m, w, scale, center)), 1.0 - a0, l);
  }

  /** With A0 = 1 every atom is immobile: the row is the delta line. */
  lemma RowImmobile(m: Libm, w: seq<real>, scale: real, center: real, hwhm: real)
    ensures Row(m, w, scale, center, 1.0, hwhm) == DeltaProfile(m, w, scale, center)
  {
    var d := DeltaProfile(m, w, scale, center);
    var row := Row(m, w, scale, center, 1.0, hwhm);
    RowMixture(m, w, scale, center, 1.0, hwhm);
    forall t | 0 <= t < |w| ensures row[t] == d[t] {
      assert row[t] == 1.0 * d[t] + 0.0 * Lorentzian(m, w, scale, center, hwhm)[t];
    }
  }

  /** With A0 = 0 every atom diffuses: the row is the Lorentzian. */
  lemma RowMobile(m: Libm, w: seq<real>, scale: real, center: real, hwhm: real)
    ensures Row(m, w, scale, center, 0.0, hwhm) == Lorentzian(m, w, scale, center, hwhm)
  {
    var l := Lorentzian(m, w, scale, center, hwhm);
    var row := Row(m, w, scale, center, 0.0, hwhm);
    RowMixture(m, w, scale, center, 0.0, hwhm);
    forall t | 0 <= t < |w| ensures row[t] == l[t] {
      assert row[t] == 0.0 * DeltaProfile(m, w, scale, center)[t] + 1.0 * l[t];
    }
  }

  /** The range check of the several-q path: true iff every item of A0 lies in [0, 1]. */
  method AllFractions(a: seq<real>) returns (ok: bool)
    ensures ok <==> forall j :: 0 <= j < |a| ==> Fraction(a[j])
  {
    for j := 0 to |a|
      invariant forall j' :: 0 <= j' < j ==> Fraction(a[j'])
    {
      if a[j] > 1.0 || a[j] < 0.0 {
        return false;
      }
    }
    return true;
  }

  /**
   * The try block of the path for several q values: row i reads A0[i], then
   * hwhm[i]; the first failed read ends the loop with its error.
   */
  method RowsPerQ(m: Libm, w: seq<real>, nq: nat, scale: real, center: real, A0: ArrayLike, hwhm: ArrayLike)
    returns (r: Result<seq<seq<real>>>)
    requires A0.Items? && nq > 1
    ensures r.Ok? <==> AllLong([A0, hwhm], nq)
    ensures r.Err? ==> r.error == FirstLookupError([A0, hwhm])
    ensures r.Ok? ==> |r.value| == nq && forall k :: 0 <= k < nq ==>
      k < |A0.items| && hwhm.Items? && k < |hwhm.items| && r.value[k] == Row(m, w, scale, center, A0.items[k], hwhm.items[k])
  {
    ghost var ps := [A0, hwhm];
    assert ps[0] == A0 && ps[1] == hwhm && ps[1..] == [hwhm] && ps[1..][1..] == [];
    var sqw := new seq<real>[nq](_ => Zeros(|w|));
    for i := 0 to nq
      invariant i > 0 ==> AllLong(ps, i)
      invariant forall k :: 0 <= k < i ==>
        k < |A0.items| && hwhm.Items? && k < |hwhm.items| && sqw[k] == Row(m, w, scale, center, A0.items[k], hwhm.items[k])
    {
      if i > 0 {
        FirstLookupErrorLate(ps);
      }
      var a0 :- Lookup(A0, i);
      var h :- Lookup(hwhm, i);
      var row := BuildRow(m, w, scale, center, a0, [1.0 - a0], [h]);
      assert row == Row(m, w, scale, center, A0.items[i], hwhm.items[i]);
      sqw[i] := row;
    }
    r := Ok(sqw[..]);
  }

  /** The path for several q values: A0 must be a list of fractions, then the rows are read per q. */
  method SeveralQ(m: Libm, w: seq<real>, nq: nat, scale: real, center: real, A0: ArrayLike, hwhm: ArrayLike)
    returns (r: Result<seq<seq<real>>>)
    requires nq > 1
    ensures A0.Scalar? ==> r == Err(TypeError)
    ensures A0.Items? && (exists j :: 0 <= j < |A0.items| && !Fraction(A0.items[j])) ==>
      r == Err(ValueError(ImmobileFraction))
    ensures A0.Items? && (forall j :: 0 <= j < |A0.items| ==> Fraction(A0.items[j])) ==>
      (r.Ok? <==> AllLong([A0, hwhm], nq)) && (r.Err? ==> r.error == FirstLookupError([A0, hwhm]))
    ensures r.Ok? ==> |r.value| == nq && |A0.Values()| >= nq && |hwhm.Values()| >= nq
    ensures r.Ok? ==> forall k :: 0 <= k < nq ==> r.value[k] == Row(m, w, scale, center, A0.Values()[k], hwhm.Values()[k])
  {
    if A0.Scalar? {
      return Err(TypeError);
    }
    var ok := AllFractions(A0.items);
    if !ok {
      return Err(ValueError(ImmobileFraction));
    }
    r := RowsPerQ(m, w, nq, scale, center, A0, hwhm);
    if r.Ok? {
      ghost var ps := [A0, hwhm];
      assert ps[0] == A0 && ps[1] == hwhm;
      assert hwhm.Items? && |A0.items| >= nq && |hwhm.items| >= nq;
      assert A0.Values() == A0.items && hwhm.Values() == hwhm.items;
    }
  }

  /** The path for a single q (or none): A0 and hwhm are used as numbers and the row goes to sqw[0, :]. */
  method SingleQ(m: Libm, w: seq<real>, nq: nat, scale: real, center: real, A0: ArrayLike, hwhm: ArrayLike)
    returns (r: Result<seq<seq<real>>>)
    requires nq <= 1
    ensures A0.Items? ==> r == Err(TypeError)
    ensures A0.Scalar? && !Fraction(A0.v) ==> r == Err(ValueError(ImmobileFraction))
    ensures nq == 0 && A0.Scalar? && Fraction(A0.v) ==> r == Err(IndexError)
    ensures nq == 1 && A0.Scalar? && Fraction(A0.v) ==> (r.Ok? <==> hwhm.Scalar?) && (hwhm.Items? ==> r == Err(TypeError))
    ensures r.Ok? ==> nq == 1 && A0.Scalar? && hwhm.Scalar? && r.value == [Row(m, w, scale, center, A0.v, hwhm.v)]
    ensures r.Ok? ==> |r.value| == nq && |A0.Values()| >= nq && |hwhm.Values()| >= nq
    ensures r.Ok? ==> forall k :: 0 <= k < nq ==> r.value[k] == Row(m, w, scale, center, A0.Values()[k], hwhm.Values()[k])
  {
    if A0.Items? {
      return Err(TypeError);
    }
    if A0.v > 1.0 || A0.v < 0.0 {
      return Err(ValueError(ImmobileFraction));
    }
    if nq == 0 {
      return Err(IndexError);
    }
    if hwhm.Items? {
      return Err(TypeError);
    }
    var row := BuildRow(m, w, scale, center, A0.v, [1.0 - A0.v], [hwhm.v]);
    assert A0.Values() == [A0.v] && hwhm.Values() == [hwhm.v];
    r := Ok([row]);
  }

  /**
   * sqwDeltaLorentz(w, q, scale, center, A0, hwhm). With several q values A0
   * must be a list whose items all lie in [0, 1], and the loop then reads
   * A0[i] and hwhm[i]; a failed read is raised again with its own type. With
   * one q (or none) A0 is compared with 0 and 1 as a number, the row is
   * written to sqw[0, :], and hwhm goes to lorentzian as a number.
   */
  method Sqw(m: Libm, w: seq<real>, q: seq<real>, scale: real, center: real, A0: ArrayLike, hwhm: ArrayLike)
    returns (r: Result<Spectrum>)
    // several q values
    ensures |q| > 1 && A0.Scalar? ==> r == Err(TypeError)
    ensures |q| > 1 && A0.Items? && (exists j :: 0 <= j < |A0.items| && !Fraction(A0.items[j])) ==>
      r == Err(ValueError(ImmobileFraction))
    ensures |q| > 1 && A0.Items? && (forall j :: 0 <= j < |A0.items| ==> Fraction(A0.items[j])) ==>
      (r.Ok? <==> AllLong([A0, hwhm], |q|)) && (r.Err? ==> r.error == FirstLookupError([A0, hwhm]))
    // a single q, or none
    ensures |q| <= 1 && A0.Items? ==> r == Err(TypeError)
    ensures |q| <= 1 && A0.Scalar? && !Fraction(A0.v) ==> r == Err(ValueError(ImmobileFraction))
    ensures |q| == 0 && A0.Scalar? && Fraction(A0.v) ==> r == Err(IndexError)
    ensures |q| == 1 && A0.Scalar? && Fraction(A0.v) ==> (r.Ok? <==> hwhm.Scalar?) && (hwhm.Items? ==> r == Err(TypeError))
    // the spectrum
    ensures r.Ok? ==> Shaped(r.value, |q|, |w|) && |A0.Values()| >= |q| && |hwhm.Values()| >= |q|
    ensures r.Ok? ==> forall i :: 0 <= i < |q| ==>
      RowsOf(r.value)[i] == Row(m, w, scale, center, A0.Values()[i], hwhm.Values()[i])
  {
    var rows: seq<seq<real>>;
    if |q| > 1 {
      rows :- SeveralQ(m, w, |q|, scale, center, A0, hwhm);
    } else {
      rows :- SingleQ(m, w, |q|, scale, center, A0, hwhm);
    }
    RowsOfReshape(rows, |w|);
    r := Ok(Reshape(rows));
  }
}
