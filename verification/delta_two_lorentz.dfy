/**
 * A fraction A0 of immobile atoms (a delta line), a fraction A1 diffusing on
 * one time scale (a first Lorentzian) and the remaining 1 − A0 − A1 on
 * another (a second Lorentzian), with every parameter given per q.
 */
module DeltaTwoLorentz {
  import opened Outcome
  import opened Special
  import opened Grids
  import opened DeltaShape
  import opened LorentzianShape
  import opened Spectra
  import DeltaLorentz

  /**
   * A0·delta(w, scale, center) + A1·lorentzian(w, scale, center, hwhm1)
   * + (1 − A0 − A1)·lorentzian(w, scale, center, hwhm2)
   */
  function Row(m: Libm, w: seq<real>, scale: real, center: real, a0: real, a1: real, h1: real, h2: real): (r: seq<real>)
    ensures |r| == |w|
  {
    QensRow(m, w, scale, center, a0, [a1, 1.0 - a0 - a1], [h1, h2])
  }

  /** The row is the mixture of the three lines: A0·delta, then + A1·L1, then + (1 − A0 − A1)·L2. */
  lemma RowMixture(m: Libm, w: seq<real>, scale: real, center: real, a0: real, a1: real, h1: real, h2: real)
    ensures Row(m, w, scale, center, a0, a1, h1, h2)
      == AddScaled(AddScaled(Scaled(a0, DeltaProfile(m, w, scale, center)), a1, Lorentzian(m, w, scale, center, h1)),
                   1.0 - a0 - a1, Lorentzian(m, w, scale, center, h2))
  {
    var l1 := Lorentzian(m, w, scale, center, h1);
    var l2 := Lorentzian(m, w, scale, center, h2);
    assert Lines(m, w, scale, center, [h1, h2]) == [l1, l2];
    AccumulateTwo(Scaled(a0, DeltaProfile(m, w, scale, center)), a1, l1, 1.0 - a0 - a1, l2);
  }

  /**
   * Two Lorentzians of the same width merge into one of weight 1 − A0: the
   * model is then the delta-plus-Lorentzian model.
   */
  lemma RowEqualWidths(m: Libm, w: seq<real>, scale: real, center: real, a0: real, a1: real, h: real)
    ensures Row(m, w, scale, center, a0, a1, h, h) == DeltaLorentz.Row(m, w, scale, center, a0, h)
  {
    var e := Scaled(a0, DeltaProfile(m, w, scale, center));
    var l := Lorentzian(m, w, scale, center, h);
    RowMixture(m, w, scale, center, a0, a1, h, h);
    DeltaLorentz.RowMixture(m, w, scale, center, a0, h);
    MergeSameLine(e, a1, 1.0 - a0 - a1, l);
    assert a1 + (1.0 - a0 - a1) == 1.0 - a0;
  }

  /**
   * With A1 = 1 − A0 the second Lorentzian carries no weight: the model is
   * the delta-plus-Lorentzian model with the first width.
   */
  lemma RowSecondLineVanishes(m: Libm, w: seq<real>, scale: real, center: real, a0: real, h1: real, h2: real)
    ensures Row(m, w, scale, center, a0, 1.0 - a0, h1, h2) == DeltaLorentz.Row(m, w, scale, center, a0, h1)
  {
    var e := Scaled(a0, DeltaProfile(m, w, scale, center));
    var f := AddScaled(e, 1.0 - a0, Lorentzian(m, w, scale, center, h1));
    var l2 := Lorentzian(m, w, scale, center, h2);
    RowMixture(m, w, scale, center, a0, 1.0 - a0, h1, h2);
    DeltaLorentz.RowMixture(m, w, scale, center, a0, h1);
    assert 1.0 - a0 - (1.0 - a0) == 0.0;
    var g := AddScaled(f, 0.0, l2);
    forall t | 0 <= t < |w| ensures g[t] == f[t] {
    }
  }

  /**
   * sqwDeltaTwoLorentz([1, 2, 3], q, 1, 1, [1, 1], [1, 1], [0.01, 0.01],
   * [0.01, 0.01]) has the rows [1, 0, 0]: the two Lorentzians cancel and
   * only the delta line is left.
   */
  lemma RowKnownValues(m: Libm)
    ensures Row(m, [1.0, 2.0, 3.0], 1.0, 1.0, 1.0, 1.0, 0.01, 0.01) == [1.0, 0.0, 0.0]
  {
    var a := [1.0, 2.0, 3.0];
    RowEqualWidths(m, a, 1.0, 1.0, 1.0, 1.0, 0.01);
    DeltaLorentz.RowImmobile(m, a, 1.0, 1.0, 0.01);
    assert Min(a) == 1.0 && Max(a) == 3.0 by {
      assert a[..2] == [1.0, 2.0] && [1.0, 2.0][..1] == [1.0];
    }
    assert IsFirstNearest(a, 1.0, 0);
    DeltaPlacement(m, a, 1.0, 1.0, 0);
    assert Spacing(a) == 1.0;
  }

  /** One row of the spectrum: the delta line, then each Lorentzian added in turn. */
  method BuildTwoLineRow(m: Libm, w: seq<real>, scale: real, center: real, a0: real, a1: real, h1: real, h2: real)
    returns (row: seq<real>)
    ensures row == Row(m, w, scale, center, a0, a1, h1, h2)
  {
    row := BuildRow(m, w, scale, center, a0, [a1, 1.0 - a0 - a1], [h1, h2]);
  }

  /**
   * Row i of the try block: A0[i], A1[i], hwhm1[i] and hwhm2[i] are read in
   * that order, and the first read that fails decides the error.
   */
  method RowAt(m: Libm, w: seq<real>, scale: real, center: real,
               A0: ArrayLike, A1: ArrayLike, hwhm1: ArrayLike, hwhm2: ArrayLike, i: nat)
    returns (r: Result<seq<real>>)
    requires i == 0 || AllLong([A0, A1, hwhm1, hwhm2], i)
    ensures r.Ok? <==> AllLong([A0, A1, hwhm1, hwhm2], i + 1)
    ensures r.Err? ==> r.error == FirstLookupError([A0, A1, hwhm1, hwhm2])
    ensures r.Ok? ==> r.value == Row(m, w, scale, center, Item(A0, i), Item(A1, i), Item(hwhm1, i), Item(hwhm2, i))
  {
    ghost var ps := [A0, A1, hwhm1, hwhm2];
    assert ps[0] == A0 && ps[1] == A1 && ps[2] == hwhm1 && ps[3] == hwhm2;
    assert ps[1..] == [A1, hwhm1, hwhm2] && ps[1..][1..] == [hwhm1, hwhm2];
    assert ps[1..][1..][1..] == [hwhm2] && ps[1..][1..][1..][1..] == [];
    assert FirstLookupError([hwhm2]) == if hwhm2.Scalar? then TypeError else IndexError;
    assert FirstLookupError([hwhm1, hwhm2]) == if hwhm1.Scalar? then TypeError
      else if |hwhm1.items| == 0 then IndexError else FirstLookupError([hwhm2]);
    assert FirstLookupError([A1, hwhm1, hwhm2]) == if A1.Scalar? then TypeError
      else if |A1.items| == 0 then IndexError else FirstLookupError([hwhm1, hwhm2]);
    if i > 0 {
      FirstLookupErrorLate(ps);
    }
    var a0 :- Lookup(A0, i);
    var a1 :- Lookup(A1, i);
    var h1 :- Lookup(hwhm1, i);
    var h2 :- Lookup(hwhm2, i);
    var row := BuildTwoLineRow(m, w, scale, center, a0, a1, h1, h2);
    return Ok(row);
  }

  /**
   * The try block of the path for several q values: row i reads A0[i], A1[i],
   * hwhm1[i] and hwhm2[i] in that order; the first failed read ends the loop
   * with its error.
   */
  method RowsPerQ(m: Libm, w: seq<real>, nq: nat, scale: real, center: real,
                  A0: ArrayLike, A1: ArrayLike, hwhm1: ArrayLike, hwhm2: ArrayLike)
    returns (r: Result<seq<seq<real>>>)
    requires nq > 1
    ensures r.Ok? <==> AllLong([A0, A1, hwhm1, hwhm2], nq)
    ensures r.Err? ==> r.error == FirstLookupError([A0, A1, hwhm1, hwhm2])
    ensures r.Ok? ==> |r.value| == nq && forall k :: 0 <= k < nq ==>
      r.value[k] == Row(m, w, scale, center, Item(A0, k), Item(A1, k), Item(hwhm1, k), Item(hwhm2, k))
  {
    ghost var ps := [A0, A1, hwhm1, hwhm2];
    var sqw := new seq<real>[nq](_ => Zeros(|w|));
    for i := 0 to nq
      invariant i > 0 ==> AllLong(ps, i)
      invariant forall k :: 0 <= k < i ==>
        sqw[k] == Row(m, w, scale, center, Item(A0, k), Item(A1, k), Item(hwhm1, k), Item(hwhm2, k))
    {
      var row := RowAt(m, w, scale, center, A0, A1, hwhm1, hwhm2, i);
      if row.Err? {
        if AllLong(ps, nq) {
          AllLongShorter(ps, i + 1, nq);
        }
        return Err(row.error);
      }
      sqw[i] := row.value;
    }
    assert forall k :: 0 <= k < nq ==> sqw[..][k] == sqw[k];
    r := Ok(sqw[..]);
  }

  /** The path for several q values, with the rows stated on the values of the parameters. */
  method SeveralQ(m: Libm, w: seq<real>, nq: nat, scale: real, center: real,
                  A0: ArrayLike, A1: ArrayLike, hwhm1: ArrayLike, hwhm2: ArrayLike)
    returns (r: Result<seq<seq<real>>>)
    requires nq > 1
    ensures r.Ok? <==> AllLong([A0, A1, hwhm1, hwhm2], nq)
    ensures r.Err? ==> r.error == FirstLookupError([A0, A1, hwhm1, hwhm2])
    ensures r.Ok? ==>
      |r.value| == nq && |A0.Values()| >= nq && |A1.Values()| >= nq && |hwhm1.Values()| >= nq && |hwhm2.Values()| >= nq
    ensures r.Ok? ==> forall k :: 0 <= k < nq ==>
      r.value[k] == Row(m, w, scale, center, A0.Values()[k], A1.Values()[k], hwhm1.Values()[k], hwhm2.Values()[k])
  {
    r := RowsPerQ(m, w, nq, scale, center, A0, A1, hwhm1, hwhm2);
    if r.Ok? {
      ghost var ps := [A0, A1, hwhm1, hwhm2];
      assert ps[0] == A0 && ps[1] == A1 && ps[2] == hwhm1 && ps[3] == hwhm2;
      assert A0.Items? && A1.Items? && hwhm1.Items? && hwhm2.Items?;
      assert |A0.items| >= nq && |A1.items| >= nq && |hwhm1.items| >= nq && |hwhm2.items| >= nq;
      assert A0.Values() == A0.items && A1.Values() == A1.items;
      assert hwhm1.Values() == hwhm1.items && hwhm2.Values() == hwhm2.items;
      forall k | 0 <= k < nq ensures
        r.value[k] == Row(m, w, scale, center, A0.Values()[k], A1.Values()[k], hwhm1.Values()[k], hwhm2.Values()[k])
      {
        assert Item(A0, k) == A0.items[k] && Item(A1, k) == A1.items[k];
        assert Item(hwhm1, k) == hwhm1.items[k] && Item(hwhm2, k) == hwhm2.items[k];
      }
    }
  }

  /**
   * The path for a single q (or none). The first row is assigned before any
   * parameter is used as a number, so with no q the assignment fails first.
   * Otherwise a list A0 or A1 cannot be subtracted from 1.0, and a list
   * half width cannot be multiplied by the scale inside lorentzian.
   */
  method SingleQ(m: Libm, w: seq<real>, nq: nat, scale: real, center: real,
                 A0: ArrayLike, A1: ArrayLike, hwhm1: ArrayLike, hwhm2: ArrayLike)
    returns (r: Result<seq<seq<real>>>)
    requires nq <= 1
    ensures nq == 0 ==> r == Err(IndexError)
    ensures nq == 1 ==> (r.Ok? <==> A0.Scalar? && A1.Scalar? && hwhm1.Scalar? && hwhm2.Scalar?)
    ensures r.Err? ==> r.error == IndexError || r.error == TypeError
    ensures nq == 1 && r.Err? ==> r.error == TypeError
    ensures r.Ok? ==>
      |r.value| == nq && |A0.Values()| >= nq && |A1.Values()| >= nq && |hwhm1.Values()| >= nq && |hwhm2.Values()| >= nq
    ensures r.Ok? ==> forall k :: 0 <= k < nq ==>
      r.value[k] == Row(m, w, scale, center, A0.Values()[k], A1.Values()[k], hwhm1.Values()[k], hwhm2.Values()[k])
  {
    if nq == 0 {
      return Err(IndexError);
    }
    if hwhm1.Items? || A0.Items? || A1.Items? || hwhm2.Items? {
      return Err(TypeError);
    }
    var row := BuildTwoLineRow(m, w, scale, center, A0.v, A1.v, hwhm1.v, hwhm2.v);
    assert A0.Values() == [A0.v] && A1.Values() == [A1.v];
    assert hwhm1.Values() == [hwhm1.v] && hwhm2.Values() == [hwhm2.v];
    r := Ok([row]);
  }

  /**
   * sqwDeltaTwoLorentz(w, q, scale, center, A0, A1, hwhm1, hwhm2). With
   * several q values the loop reads every parameter at i; a failed read is
   * raised again with its own type. With one q the parameters are used as
   * numbers, and the single row is the whole spectrum.
   */
  method Sqw(m: Libm, w: seq<real>, q: seq<real>, scale: real, center: real,
             A0: ArrayLike, A1: ArrayLike, hwhm1: ArrayLike, hwhm2: ArrayLike)
    returns (r: Result<Spectrum>)
    ensures |q| > 1 ==> (r.Ok? <==> AllLong([A0, A1, hwhm1, hwhm2], |q|))
    ensures |q| > 1 && r.Err? ==> r.error == FirstLookupError([A0, A1, hwhm1, hwhm2])
    ensures |q| == 0 ==> r == Err(IndexError)
    ensures |q| == 1 ==> (r.Ok? <==> A0.Scalar? && A1.Scalar? && hwhm1.Scalar? && hwhm2.Scalar?)
    ensures |q| == 1 && r.Err? ==> r.error == TypeError
    ensures r.Ok? ==> Shaped(r.value, |q|, |w|)
    ensures r.Ok? ==>
      |A0.Values()| >= |q| && |A1.Values()| >= |q| && |hwhm1.Values()| >= |q| && |hwhm2.Values()| >= |q|
    ensures r.Ok? ==> forall i :: 0 <= i < |q| ==>
      RowsOf(r.value)[i] == Row(m, w, scale, center, A0.Values()[i], A1.Values()[i], hwhm1.Values()[i], hwhm2.Values()[i])
  {
    var rows: seq<seq<real>>;
    if |q| > 1 {
      rows :- SeveralQ(m, w, |q|, scale, center, A0, A1, hwhm1, hwhm2);
    } else {
      rows :- SingleQ(m, w, |q|, scale, center, A0, A1, hwhm1, hwhm2);
    }
    RowsOfReshape(rows, |w|);
    r := Ok(Reshape(rows));
  }
}
