/**
 * The row arithmetic the spectrum synthesisers share: a row starts from an
 * elastic (or first) line and receives `row += weight · line` for each further
 * component, and the rows of a (q.size, w.size) buffer are filled one q at a
 * time.
 */
module Spectra {
  import opened Special
  import opened Grids
  import opened DeltaShape
  import opened LorentzianShape

  /** Every line has the length of the starting row, and there is one weight per line. */
  predicate Conformable(init: seq<real>, weights: seq<real>, lines: seq<seq<real>>) {
    |weights| == |lines| && forall j :: 0 <= j < |lines| ==> |lines[j]| == |init|
  }

  /** init + weights[0]·lines[0] + weights[1]·lines[1] + …, added left to right. */
  function Accumulate(init: seq<real>, weights: seq<real>, lines: seq<seq<real>>): (r: seq<real>)
    requires Conformable(init, weights, lines)
    ensures |r| == |init|
    decreases |weights|
  {
    if |weights| == 0 then init
    else
      var n := |weights| - 1;
      AddScaled(Accumulate(init, weights[..n], lines[..n]), weights[n], lines[n])
  }

  /** The `for j: row += weights[j] * lines[j]` loop of the synthesisers. */
  method AccumulateRow(init: seq<real>, weights: seq<real>, lines: seq<seq<real>>) returns (row: seq<real>)
    requires Conformable(init, weights, lines)
    ensures row == Accumulate(init, weights, lines)
  {
    row := init;
    for j := 0 to |weights|
      invariant row == Accumulate(init, weights[..j], lines[..j])
    {
      assert weights[..j + 1][..j] == weights[..j];
      assert lines[..j + 1][..j] == lines[..j];
      row := AddScaled(row, weights[j], lines[j]);
    }
    assert weights[..|weights|] == weights && lines[..|lines|] == lines;
  }

  /** Accumulating two runs of components one after the other is accumulating their concatenation. */
  lemma {:induction false} AccumulateConcat(init: seq<real>, w1: seq<real>, l1: seq<seq<real>>, w2: seq<real>, l2: seq<seq<real>>)
    requires Conformable(init, w1, l1) && Conformable(init, w2, l2)
    ensures Conformable(init, w1 + w2, l1 + l2)
    ensures Accumulate(init, w1 + w2, l1 + l2) == Accumulate(Accumulate(init, w1, l1), w2, l2)
  {
    if |w2| == 0 {
      assert w1 + w2 == w1 && l1 + l2 == l1;
    } else {
      var n := |w2| - 1;
      AccumulateConcat(init, w1, l1, w2[..n], l2[..n]);
      assert (w1 + w2)[..|w1 + w2| - 1] == w1 + w2[..n];
      assert (l1 + l2)[..|l1 + l2| - 1] == l1 + l2[..n];
    }
  }

  /** A single component: init + weight·line. */
  lemma AccumulateOne(init: seq<real>, weight: real, line: seq<real>)
    requires |line| == |init|
    ensures Conformable(init, [weight], [line])
    ensures Accumulate(init, [weight], [line]) == AddScaled(init, weight, line)
  {
    assert [weight][..0] == [] && [line][..0] == [];
  }

  /** Two components: init + w1·l1 + w2·l2. */
  lemma AccumulateTwo(init: seq<real>, w1: real, l1: seq<real>, w2: real, l2: seq<real>)
    requires |l1| == |init| && |l2| == |init|
    ensures Conformable(init, [w1, w2], [l1, l2])
    ensures Accumulate(init, [w1, w2], [l1, l2]) == AddScaled(AddScaled(init, w1, l1), w2, l2)
  {
    AccumulateOne(init, w1, l1);
    assert [w1, w2][..1] == [w1] && [l1, l2][..1] == [l1];
  }

  /** Two components on the same line add their weights. */
  lemma MergeSameLine(init: seq<real>, a: real, b: real, line: seq<real>)
    requires |line| == |init|
    ensures AddScaled(AddScaled(init, a, line), b, line) == AddScaled(init, a + b, line)
  {
    var x := AddScaled(AddScaled(init, a, line), b, line);
    var y := AddScaled(init, a + b, line);
    forall t | 0 <= t < |init| ensures x[t] == y[t] {
      assert x[t] == init[t] + a * line[t] + b * line[t];
    }
  }

  /** Components with zero weight leave the starting row unchanged. */
  lemma {:induction false} AccumulateZeroWeights(init: seq<real>, weights: seq<real>, lines: seq<seq<real>>)
    requires Conformable(init, weights, lines)
    requires forall j :: 0 <= j < |weights| ==> weights[j] == 0.0
    ensures Accumulate(init, weights, lines) == init
  {
    if |weights| > 0 {
      var n := |weights| - 1;
      AccumulateZeroWeights(init, weights[..n], lines[..n]);
      var r := Accumulate(init, weights, lines);
      forall t | 0 <= t < |init| ensures r[t] == init[t] {
        assert r[t] == init[t] + 0.0 * lines[n][t];
      }
    }
  }

  /** k·s for each line */
  function ScaledLines(k: real, lines: seq<seq<real>>): (r: seq<seq<real>>)
    ensures |r| == |lines| && forall j :: 0 <= j < |lines| ==> r[j] == Scaled(k, lines[j])
  {
    seq(|lines|, j requires 0 <= j < |lines| => Scaled(k, lines[j]))
  }

  /** Scaling the starting row and every line by k scales the accumulated row by k. */
  lemma {:induction false} AccumulateScaled(k: real, init: seq<real>, weights: seq<real>, lines: seq<seq<real>>)
    requires Conformable(init, weights, lines)
    ensures Conformable(Scaled(k, init), weights, ScaledLines(k, lines))
    ensures Accumulate(Scaled(k, init), weights, ScaledLines(k, lines)) == Scaled(k, Accumulate(init, weights, lines))
  {
    var sl := ScaledLines(k, lines);
    if |weights| > 0 {
      var n := |weights| - 1;
      assert sl[..n] == ScaledLines(k, lines[..n]);
      AccumulateScaled(k, init, weights[..n], lines[..n]);
      var a := Accumulate(init, weights[..n], lines[..n]);
      ScaledStep(k, a, weights[n], lines[n]);
    }
  }

  /** k·a + w·(k·l) == k·(a + w·l), elementwise */
  lemma ScaledStep(k: real, a: seq<real>, w: real, l: seq<real>)
    requires |a| == |l|
    ensures AddScaled(Scaled(k, a), w, Scaled(k, l)) == Scaled(k, AddScaled(a, w, l))
  {
    var x := AddScaled(Scaled(k, a), w, Scaled(k, l));
    var y := Scaled(k, AddScaled(a, w, l));
    forall t | 0 <= t < |a| ensures x[t] == y[t] {
      calc {
        x[t];
        k * a[t] + w * (k * l[t]);
        k * (a[t] + w * l[t]);
        y[t];
      }
    }
  }

  /**
   * The rows lorentzian(w, scale, center, hwhm[i]) of the single-Lorentzian
   * synthesisers, one per q.
   */
  method LorentzianRows(m: Libm, w: seq<real>, hwhm: seq<real>, scale: real, center: real)
    returns (rows: seq<seq<real>>)
    ensures |rows| == |hwhm|
    ensures forall i :: 0 <= i < |hwhm| ==> rows[i] == Lorentzian(m, w, scale, center, hwhm[i])
  {
    var sqw := new seq<real>[|hwhm|](_ => Zeros(|w|));
    for i := 0 to |hwhm|
      invariant forall k :: 0 <= k < i ==> sqw[k] == Lorentzian(m, w, scale, center, hwhm[k])
    {
      sqw[i] := Lorentzian(m, w, scale, center, hwhm[i]);
    }
    rows := sqw[..];
  }

  /** lorentzian(w, scale, center, widths[j]) for each width */
  function Lines(m: Libm, w: seq<real>, scale: real, center: real, widths: seq<real>): (r: seq<seq<real>>)
    ensures |r| == |widths|
    ensures forall j :: 0 <= j < |widths| ==> r[j] == Lorentzian(m, w, scale, center, widths[j])
    ensures Conformable(w, widths, r)
  {
    seq(|widths|, j requires 0 <= j < |widths| => Lorentzian(m, w, scale, center, widths[j]))
  }

  /** The lines of concatenated widths are the concatenated lines. */
  lemma LinesConcat(m: Libm, w: seq<real>, scale: real, center: real, a: seq<real>, b: seq<real>)
    ensures Lines(m, w, scale, center, a + b) == Lines(m, w, scale, center, a) + Lines(m, w, scale, center, b)
  {
  }

  /**
   * elastic·delta(w, scale, center) + Σ_j weights[j]·lorentzian(w, scale,
   * center, widths[j]): the row of a model with an elastic line and
   * quasi-elastic Lorentzians.
   */
  function QensRow(m: Libm, w: seq<real>, scale: real, center: real, elastic: real, weights: seq<real>, widths: seq<real>): (r: seq<real>)
    requires |weights| == |widths|
    ensures |r| == |w|
  {
    Accumulate(Scaled(elastic, DeltaProfile(m, w, scale, center)), weights, Lines(m, w, scale, center, widths))
  }

  /** With an elastic fraction of 1 and no quasi-elastic weight the row is the delta line alone. */
  lemma QensRowElasticOnly(m: Libm, w: seq<real>, scale: real, center: real, weights: seq<real>, widths: seq<real>)
    requires |weights| == |widths|
    requires forall j :: 0 <= j < |weights| ==> weights[j] == 0.0
    ensures QensRow(m, w, scale, center, 1.0, weights, widths) == DeltaProfile(m, w, scale, center)
  {
    var d := DeltaProfile(m, w, scale, center);
    AccumulateZeroWeights(Scaled(1.0, d), weights, Lines(m, w, scale, center, widths));
    assert Scaled(1.0, d) == d;
  }

  /** The row is linear in scale, on any grid whose spacing is not zero. */
  lemma QensRowScaleLinear(m: Libm, w: seq<real>, k: real, scale: real, center: real, elastic: real,
                           weights: seq<real>, widths: seq<real>)
    requires |weights| == |widths|
    requires |w| <= 1 || Min(w) < Max(w)
    ensures QensRow(m, w, k * scale, center, elastic, weights, widths)
      == Scaled(k, QensRow(m, w, scale, center, elastic, weights, widths))
  {
    var d := DeltaProfile(m, w, scale, center);
    var ls := Lines(m, w, scale, center, widths);
    var e := Scaled(elastic, d);
    assert Scaled(elastic, DeltaProfile(m, w, k * scale, center)) == Scaled(k, e) by {
      DeltaScaleLinear(m, w, k, scale, center);
      ScaledCommute(elastic, k, d);
    }
    LinesScaleLinear(m, w, k, scale, center, widths);
    AccumulateScaled(k, e, weights, ls);
    calc {
      QensRow(m, w, k * scale, center, elastic, weights, widths);
      Accumulate(Scaled(elastic, DeltaProfile(m, w, k * scale, center)), weights, Lines(m, w, k * scale, center, widths));
      Accumulate(Scaled(k, e), weights, ScaledLines(k, ls));
      Scaled(k, Accumulate(e, weights, ls));
    }
  }

  lemma ScaledCommute(a: real, b: real, s: seq<real>)
    ensures Scaled(a, Scaled(b, s)) == Scaled(b, Scaled(a, s))
  {
    var x := Scaled(a, Scaled(b, s));
    var y := Scaled(b, Scaled(a, s));
    forall t | 0 <= t < |s| ensures x[t] == y[t] {
      assert a * (b * s[t]) == b * (a * s[t]);
    }
  }

  lemma LinesScaleLinear(m: Libm, w: seq<real>, k: real, scale: real, center: real, widths: seq<real>)
    requires |w| <= 1 || Min(w) < Max(w)
    ensures Lines(m, w, k * scale, center, widths) == ScaledLines(k, Lines(m, w, scale, center, widths))
  {
    forall j | 0 <= j < |widths|
      ensures Lines(m, w, k * scale, center, widths)[j] == ScaledLines(k, Lines(m, w, scale, center, widths))[j]
    {
      LorentzianScaleLinear(m, w, k, scale, center, widths[j]);
    }
  }

  /**
   * One row of a synthesiser with an elastic line: `row = elastic * delta(w,
   * scale, center)`, then `row += weights[j] * lorentzian(w, scale, center,
   * widths[j])` for each j.
   */
  method BuildRow(m: Libm, w: seq<real>, scale: real, center: real, elastic: real, weights: seq<real>, widths: seq<real>)
    returns (row: seq<real>)
    requires |weights| == |widths|
    ensures row == QensRow(m, w, scale, center, elastic, weights, widths)
  {
    var d := Delta(m, Items(w), scale, center);
    row := AccumulateRow(Scaled(elastic, d), weights, Lines(m, w, scale, center, widths));
  }
}
