/**
 * Jumps between N sites on a circle with a log-normal distribution of
 * residence times: every quasi-elastic line of the equivalent-sites model is
 * spread over 21 Lorentzians whose widths are that line's width times a
 * ratio, weighted by normalised Gaussian weights of the log of the ratio.
 */
module LogNormSites {
  import opened Outcome
  import opened Special
  import opened Grids
  import opened DeltaShape
  import opened Spectra
  import EquivalentSites

  /** n_max: 2·n_max + 1 Lorentzians per line */
  const NMax: nat := 10
  const Samples: nat := 2 * NMax + 1

  /** low_lim: the smallest weight kept, relative to the largest */
  const LowLimit: Pos := 0.1

  /**
   * The checks of hwhmJumpSitesLogNormDist, in their order: radius, the sign
   * of resTime, Nsites, sigma; then the division 2.0 / resTime inside the
   * equivalent-sites model, which receives the truncated number of sites.
   */
  function Checked(Nsites: real, radius: real, resTime: real, sigma: real): (r: Result<nat>)
    ensures r.Ok? <==> radius > 0.0 && resTime > 0.0 && Nsites >= 2.0 && sigma > 0.0
    ensures radius <= 0.0 ==> r == Err(ValueError(Radius))
    ensures radius > 0.0 && resTime < 0.0 ==> r == Err(ValueError(ResidenceTime))
    ensures radius > 0.0 && resTime >= 0.0 && Nsites < 2.0 ==> r == Err(ValueError(NumberOfSites))
    ensures radius > 0.0 && resTime >= 0.0 && Nsites >= 2.0 && sigma <= 0.0 ==> r == Err(ValueError(Sigma))
    ensures radius > 0.0 && resTime == 0.0 && Nsites >= 2.0 && sigma > 0.0 ==> r == Err(ZeroDivisionError)
    ensures r.Ok? ==> r.value >= 2 && r.value as real <= Nsites < r.value as real + 1.0
    ensures r.Ok? ==> r == EquivalentSites.Sites(Nsites.Floor as real, radius, resTime)
  {
    if radius <= 0.0 then Err(ValueError(Radius))
    else if resTime < 0.0 then Err(ValueError(ResidenceTime))
    else if Nsites < 2.0 then Err(ValueError(NumberOfSites))
    else if sigma <= 0.0 then Err(ValueError(Sigma))
    else EquivalentSites.Sites(Nsites.Floor as real, radius, resTime)
  }

  /** range_gamma = sigma·sqrt(−2·log(low_lim)), the largest |log ratio| explored */
  function RangeGamma(m: Libm, sigma: real): real
    requires Sound(m)
  {
    sigma * m.sqrt(-2.0 * m.log(LowLimit))
  }

  /** log ratio[k] = k·dgamma − range_gamma, with dgamma = range_gamma / n_max */
  function LogRatio(m: Libm, sigma: real, k: nat): real
    requires Sound(m)
  {
    (k as real) * (RangeGamma(m, sigma) / (NMax as real)) - RangeGamma(m, sigma)
  }

  /** ratio: the 21 factors γ_k/γ applied to each width */
  function Ratio(m: Libm, sigma: real): (r: seq<real>)
    requires Sound(m)
    ensures |r| == Samples && forall k :: 0 <= k < Samples ==> r[k] > 0.0
  {
    seq(Samples, k requires 0 <= k < Samples => m.exp(LogRatio(m, sigma, k)))
  }

  /** exp(−0.5·log²(ratio[k]) / sigma²), before normalisation */
  function RawWeight(m: Libm, sigma: real, k: nat): Pos
    requires Sound(m) && sigma != 0.0 && k < Samples
  {
    SqPositive(sigma);
    m.exp(-0.5 * Sq(m.log(Ratio(m, sigma)[k])) / Sq(sigma))
  }

  function RawWeights(m: Libm, sigma: real): (r: seq<real>)
    requires Sound(m) && sigma != 0.0
    ensures |r| == Samples && forall k :: 0 <= k < Samples ==> r[k] == RawWeight(m, sigma, k) > 0.0
  {
    seq(Samples, k requires 0 <= k < Samples => RawWeight(m, sigma, k) as real)
  }

  /** s / np.sum(s), for positive entries */
  function Normalise(s: seq<real>): (r: seq<real>)
    requires |s| > 0 && forall k :: 0 <= k < |s| ==> s[k] > 0.0
    ensures |r| == |s|
  {
    SumPositive(s);
    seq(|s|, k requires 0 <= k < |s| => s[k] / Sum(s))
  }

  /** Normalised positive entries stay positive and sum to 1. */
  lemma NormaliseSumsToOne(s: seq<real>)
    requires |s| > 0 && forall k :: 0 <= k < |s| ==> s[k] > 0.0
    ensures forall k :: 0 <= k < |s| ==> Normalise(s)[k] > 0.0
    ensures Sum(Normalise(s)) == 1.0
  {
    SumPositive(s);
    var t := Sum(s);
    var n := Normalise(s);
    forall k | 0 <= k < |s| ensures n[k] > 0.0 {
      assert n[k] == s[k] / t;
    }
    var sc := Scaled(1.0 / t, s);
    forall k | 0 <= k < |s| ensures n[k] == sc[k] {
      assert n[k] == s[k] / t;
      DivideByReciprocal(s[k], t);
    }
    assert n == sc;
    SumScaled(1.0 / t, s);
    assert (1.0 / t) * t == 1.0;
  }

  /** The positive values s divided by their sum. */
  function Weights(m: Libm, sigma: real): (r: seq<real>)
    requires Sound(m) && sigma != 0.0
    ensures |r| == Samples
  {
    Normalise(RawWeights(m, sigma))
  }

  /** Each width of each site spread over the samples: the width times each sample ratio. */
  function Spread(widths: seq<seq<real>>, ratio: seq<real>): (r: seq<seq<seq<real>>>)
    ensures |r| == |widths|
    ensures forall a :: 0 <= a < |widths| ==> |r[a]| == |widths[a]|
    ensures forall a, b :: 0 <= a < |widths| && 0 <= b < |widths[a]| ==> r[a][b] == Scaled(widths[a][b], ratio)
  {
    seq(|widths|, a requires 0 <= a < |widths| =>
      seq(|widths[a]|, b requires 0 <= b < |widths[a]| => Scaled(widths[a][b], ratio)))
  }

  /** The middle sample of the ratio is 1: log ratio[n_max] == 0. */
  lemma RatioAtMiddle(m: Libm, sigma: real)
    requires Sound(m)
    ensures LogRatio(m, sigma, NMax) == 0.0
    ensures Ratio(m, sigma)[NMax] == 1.0
  {
    var g := RangeGamma(m, sigma);
    assert (NMax as real) * (g / (NMax as real)) == g;
  }

  /** log ratio[2·n_max − k] == −log ratio[k]: the samples are symmetric in log. */
  lemma LogRatioSymmetric(m: Libm, sigma: real, k: nat)
    requires Sound(m) && k < Samples
    ensures LogRatio(m, sigma, Samples - 1 - k) == -LogRatio(m, sigma, k)
  {
    var g := RangeGamma(m, sigma);
    var d := g / (NMax as real);
    var x := k as real;
    assert (Samples - 1 - k) as real == 20.0 - x;
    calc {
      LogRatio(m, sigma, Samples - 1 - k);
      (20.0 - x) * d - g;
      20.0 * d - x * d - g;
      -(x * d - g);
    }
  }

  /** The unnormalised weight is exp(−0.5·(log ratio)²/sigma²) and is symmetric. */
  lemma RawWeightSymmetric(m: Libm, sigma: real, k: nat)
    requires Sound(m) && sigma != 0.0 && k < Samples
    ensures RawWeight(m, sigma, k) == RawWeight(m, sigma, Samples - 1 - k)
  {
    var x := LogRatio(m, sigma, k);
    LogRatioSymmetric(m, sigma, k);
    assert m.log(Ratio(m, sigma)[k]) == x;
    assert m.log(Ratio(m, sigma)[Samples - 1 - k]) == -x;
    assert Sq(-x) == Sq(x) by {
      calc { Sq(-x); (-x) * (-x); x * x; }
    }
  }

  /** The weights gi are symmetric: gi[k] == gi[20 − k]. */
  lemma WeightsSymmetric(m: Libm, sigma: real, k: nat)
    requires Sound(m) && sigma != 0.0 && k < Samples
    ensures Weights(m, sigma)[k] == Weights(m, sigma)[Samples - 1 - k]
  {
    RawWeightSymmetric(m, sigma, k);
  }

  lemma DivideByReciprocal(x: real, t: real)
    requires t != 0.0
    ensures x / t == (1.0 / t) * x
  {
  }

  /** The weights gi are positive and sum to 1. */
  lemma WeightsNormalised(m: Libm, sigma: real)
    requires Sound(m) && sigma != 0.0
    ensures forall k :: 0 <= k < Samples ==> Weights(m, sigma)[k] > 0.0
    ensures Sum(Weights(m, sigma)) == 1.0
  {
    NormaliseSumsToOne(RawWeights(m, sigma));
  }

  /** The middle sample of every spread line has the line's own width. */
  lemma MiddleSample(m: Libm, sigma: real, widths: seq<seq<real>>, a: nat, b: nat)
    requires Sound(m) && a < |widths| && b < |widths[a]|
    ensures Spread(widths, Ratio(m, sigma))[a][b][NMax] == widths[a][b]
  {
    RatioAtMiddle(m, sigma);
  }

  /** A weight spread over the samples keeps its total: Σ_k qisf[q, s, k] == qisf_equiv[q, s]. */
  lemma SpreadWeightKept(m: Libm, sigma: real, weights: seq<seq<real>>, a: nat, b: nat)
    requires Sound(m) && sigma != 0.0 && a < |weights| && b < |weights[a]|
    ensures Sum(Spread(weights, Weights(m, sigma))[a][b]) == weights[a][b]
  {
    WeightsNormalised(m, sigma);
    SumScaled(weights[a][b], Weights(m, sigma));
  }

  /**
   * The elastic fraction and all 21·(N − 1) quasi-elastic weights of a q
   * still sum to 1.
   */
  lemma Normalised(m: Libm, q: seq<real>, radius: real, n: nat, sigma: real, k: nat)
    requires Sound(m) && sigma != 0.0 && n > 0 && k < |q|
    ensures
      var qisf := Spread(EquivalentSites.Qisf(m, q, radius, n), Weights(m, sigma));
      EquivalentSites.Eisf(m, q, radius, n)[k] + Sum(Flatten(qisf[k])) == 1.0
  {
    var eq := EquivalentSites.Qisf(m, q, radius, n);
    var qisf := Spread(eq, Weights(m, sigma));
    SumFlatten(qisf[k]);
    assert RowSums(qisf[k]) == eq[k] by {
      forall b | 0 <= b < |eq[k]| ensures RowSums(qisf[k])[b] == eq[k][b] {
        SpreadWeightKept(m, sigma, eq, k, b);
      }
    }
    EquivalentSites.Normalised(m, q, radius, n, k);
  }

  /** The values of a 3-D buffer as nested rows. */
  function Cells(a: array3<real>): (r: seq<seq<seq<real>>>)
    reads a
    ensures |r| == a.Length0
    ensures forall i :: 0 <= i < a.Length0 ==> |r[i]| == a.Length1
    ensures forall i, j :: 0 <= i < a.Length0 && 0 <= j < a.Length1 ==> |r[i][j]| == a.Length2
    ensures forall i, j, l :: 0 <= i < a.Length0 && 0 <= j < a.Length1 && 0 <= l < a.Length2 ==> r[i][j][l] == a[i, j, l]
  {
    seq(a.Length0, i requires 0 <= i < a.Length0 reads a =>
      seq(a.Length1, j requires 0 <= j < a.Length1 reads a =>
        seq(a.Length2, l requires 0 <= l < a.Length2 reads a => a[i, j, l])))
  }

  /** for isite: qisf[qi, isite, l] = qisf_equiv[qi, isite]·g */
  method FillSites(qisf: array3<real>, qi: nat, l: nat, eqRow: seq<real>, g: real)
    requires qi < qisf.Length0 && l < qisf.Length2 && |eqRow| == qisf.Length1
    modifies qisf
    ensures forall a, b, c :: 0 <= a < qisf.Length0 && 0 <= b < qisf.Length1 && 0 <= c < qisf.Length2 ==>
      qisf[a, b, c] == if a == qi && c == l then eqRow[b] * g else old(qisf[a, b, c])
  {
    for s := 0 to qisf.Length1
      invariant forall a, b, c :: 0 <= a < qisf.Length0 && 0 <= b < qisf.Length1 && 0 <= c < qisf.Length2 ==>
        qisf[a, b, c] == if a == qi && c == l && b < s then eqRow[b] * g else old(qisf[a, b, c])
    {
      qisf[qi, s, l] := eqRow[s] * g;
    }
  }

  /** for ilor: for isite: qisf[qi, isite, ilor] = qisf_equiv[qi, isite]·gi[ilor] */
  method FillSamples(qisf: array3<real>, qi: nat, eqRow: seq<real>, gi: seq<real>)
    requires qi < qisf.Length0 && |gi| == qisf.Length2 && |eqRow| == qisf.Length1
    modifies qisf
    ensures forall a, b, c :: 0 <= a < qisf.Length0 && 0 <= b < qisf.Length1 && 0 <= c < qisf.Length2 ==>
      qisf[a, b, c] == if a == qi then eqRow[b] * gi[c] else old(qisf[a, b, c])
  {
    for l := 0 to qisf.Length2
      invariant forall a, b, c :: 0 <= a < qisf.Length0 && 0 <= b < qisf.Length1 && 0 <= c < qisf.Length2 ==>
        qisf[a, b, c] == if a == qi && c < l then eqRow[b] * gi[c] else old(qisf[a, b, c])
    {
      FillSites(qisf, qi, l, eqRow, gi[l]);
    }
  }

  /** The triple loop filling qisf of shape (q.size, N − 1, 21). */
  method QisfTable(eq: seq<seq<real>>, sites: nat, gi: seq<real>) returns (r: seq<seq<seq<real>>>)
    requires forall a :: 0 <= a < |eq| ==> |eq[a]| == sites
    ensures r == Spread(eq, gi)
  {
    var qisf := new real[|eq|, sites, |gi|]((_, _, _) => 0.0);
    for qi := 0 to |eq|
      modifies qisf
      invariant forall a, b, c :: 0 <= a < |eq| && 0 <= b < sites && 0 <= c < |gi| ==>
        qisf[a, b, c] == if a < qi then eq[a][b] * gi[c] else 0.0
    {
      label before:
      FillSamples(qisf, qi, eq[qi], gi);
      forall a, b, c | 0 <= a < |eq| && 0 <= b < sites && 0 <= c < |gi|
        ensures qisf[a, b, c] == if a < qi + 1 then eq[a][b] * gi[c] else 0.0
      {
        if a == qi {
          assert qisf[a, b, c] == eq[qi][b] * gi[c];
        } else {
          assert qisf[a, b, c] == old@before(qisf[a, b, c]);
        }
      }
    }
    r := Cells(qisf);
    var s := Spread(eq, gi);
    forall a | 0 <= a < |eq| ensures r[a] == s[a] {
      forall b | 0 <= b < sites ensures r[a][b] == s[a][b] {
        assert |r[a][b]| == |s[a][b]|;
      }
    }
  }

  /** The double loop filling hwhm of shape (q.size, N, 21), one sample row at a time. */
  method HwhmTable(widths: seq<seq<real>>, sites: nat, ratio: seq<real>) returns (r: seq<seq<seq<real>>>)
    requires forall a :: 0 <= a < |widths| ==> |widths[a]| == sites
    ensures r == Spread(widths, ratio)
  {
    var hwhm := new seq<real>[|widths|, sites]((_, _) => Zeros(|ratio|));
    for qi := 0 to |widths|
      modifies hwhm
      invariant forall a, b :: 0 <= a < |widths| && 0 <= b < sites ==>
        hwhm[a, b] == if a < qi then Scaled(widths[a][b], ratio) else Zeros(|ratio|)
    {
      for s := 0 to sites
        invariant forall a, b :: 0 <= a < |widths| && 0 <= b < sites ==>
          hwhm[a, b] == if a < qi || (a == qi && b < s) then Scaled(widths[a][b], ratio) else Zeros(|ratio|)
      {
        hwhm[qi, s] := Scaled(widths[qi][s], ratio);
      }
    }
    r := Grids.Rows(hwhm);
    var t := Spread(widths, ratio);
    forall a | 0 <= a < |widths| ensures r[a] == t[a] {
    }
  }

  /**
   * hwhmJumpSitesLogNormDist(q, Nsites, radius, resTime, sigma): the
   * equivalent-sites components, each width spread by the ratio and each
   * quasi-elastic weight by the weights gi.
   */
  method Hwhm(m: Libm, q: seq<real>, Nsites: real, radius: real, resTime: real, sigma: real)
    returns (r: Result<Components<seq<seq<seq<real>>>, seq<seq<seq<real>>>>>)
    requires Sound(m)
    ensures r.Ok? <==> Checked(Nsites, radius, resTime, sigma).Ok?
    ensures r.Err? ==> r.error == Checked(Nsites, radius, resTime, sigma).error
    ensures r.Ok? ==> resTime > 0.0 && Checked(Nsites, radius, resTime, sigma).value > 0
    ensures r.Ok? ==>
      var n := Checked(Nsites, radius, resTime, sigma).value;
      r.value == Components(
        Spread(EquivalentSites.Widths(m, |q|, resTime, n), Ratio(m, sigma)),
        EquivalentSites.Eisf(m, q, radius, n),
        Spread(EquivalentSites.Qisf(m, q, radius, n), Weights(m, sigma)))
  {
    if radius <= 0.0 {
      return Err(ValueError(Radius));
    }
    if resTime < 0.0 {
      return Err(ValueError(ResidenceTime));
    }
    if Nsites < 2.0 {
      return Err(ValueError(NumberOfSites));
    }
    if sigma <= 0.0 {
      return Err(ValueError(Sigma));
    }
    var equiv :- EquivalentSites.Hwhm(m, q, Nsites.Floor as real, radius, resTime);
    var n := Checked(Nsites, radius, resTime, sigma).value;
    var ratio := Ratio(m, sigma);
    var gi := Weights(m, sigma);
    var hwhm := HwhmTable(equiv.hwhm, n, ratio);
    var qisf := QisfTable(equiv.qisf, n - 1, gi);
    r := Ok(Components(hwhm, equiv.eisf, qisf));
  }

  /**
   * eisf·delta + Σ_j Σ_k weights[j][k]·lorentzian(widths[j][k]): the triple
   * loop of the synthesiser for one q.
   */
  method DistributedRow(m: Libm, w: seq<real>, scale: real, center: real, elastic: real,
                        weights: seq<seq<real>>, widths: seq<seq<real>>)
    returns (row: seq<real>)
    requires |weights| == |widths| && forall j :: 0 <= j < |weights| ==> |weights[j]| == |widths[j]|
    ensures |Flatten(weights)| == |Flatten(widths)|
    ensures row == QensRow(m, w, scale, center, elastic, Flatten(weights), Flatten(widths))
  {
    FlattenSameShape(weights, widths);
    var d := Delta(m, Items(w), scale, center);
    var init := Scaled(elastic, d);
    row := init;
    for j := 0 to |weights|
      invariant |Flatten(weights[..j])| == |Flatten(widths[..j])|
      invariant row == QensRow(m, w, scale, center, elastic, Flatten(weights[..j]), Flatten(widths[..j]))
    {
      assert weights[..j + 1][..j] == weights[..j];
      assert widths[..j + 1][..j] == widths[..j];
      FlattenSameShape(weights[..j + 1], widths[..j + 1]);
      var fw := Flatten(weights[..j]);
      var fl := Lines(m, w, scale, center, Flatten(widths[..j]));
      var lines := Lines(m, w, scale, center, widths[j]);
      LinesConcat(m, w, scale, center, Flatten(widths[..j]), widths[j]);
      AccumulateConcat(init, fw, fl, weights[j], lines);
      row := AccumulateRow(row, weights[j], lines);
    }
    assert weights[..|weights|] == weights && widths[..|widths|] == widths;
  }

  /** The widths of every site (the first carries no weight) against the spread weights of sites 1..N − 1. */
  predicate SitesConform(weights: seq<seq<real>>, hwhmRow: seq<seq<real>>) {
    |hwhmRow| == |weights| + 1 && forall j :: 0 <= j < |weights| ==> |weights[j]| == |hwhmRow[j + 1]|
  }

  /** elastic·delta + Σ_j Σ_k weights[j][k]·lorentzian(hwhmRow[j + 1][k]) */
  function SitesRow(m: Libm, w: seq<real>, scale: real, center: real, elastic: real,
                    weights: seq<seq<real>>, hwhmRow: seq<seq<real>>): (r: seq<real>)
    requires SitesConform(weights, hwhmRow)
    ensures |r| == |w|
  {
    var widths := hwhmRow[1..];
    assert forall j :: 0 <= j < |weights| ==> |weights[j]| == |widths[j]|;
    FlattenSameShape(weights, widths);
    QensRow(m, w, scale, center, elastic, Flatten(weights), Flatten(widths))
  }

  /** Row i of sqw, built by the two inner loops. */
  method RowForQ(m: Libm, w: seq<real>, scale: real, center: real, elastic: real,
                 weights: seq<seq<real>>, hwhmRow: seq<seq<real>>)
    returns (row: seq<real>)
    requires SitesConform(weights, hwhmRow)
    ensures row == SitesRow(m, w, scale, center, elastic, weights, hwhmRow)
  {
    var widths := hwhmRow[1..];
    assert forall j :: 0 <= j < |weights| ==> |weights[j]| == |widths[j]|;
    row := DistributedRow(m, w, scale, center, elastic, weights, widths);
  }

  /** The provider's tables have the shapes the rows need. */
  lemma ProviderConforms(m: Libm, q: seq<real>, radius: real, resTime: real, sigma: real, n: nat, k: nat)
    requires Sound(m) && sigma != 0.0 && resTime != 0.0 && n > 0 && k < |q|
    ensures SitesConform(Spread(EquivalentSites.Qisf(m, q, radius, n), Weights(m, sigma))[k],
                         Spread(EquivalentSites.Widths(m, |q|, resTime, n), Ratio(m, sigma))[k])
  {
    var widths := EquivalentSites.Widths(m, |q|, resTime, n);
    var weights := EquivalentSites.Qisf(m, q, radius, n);
    assert |widths[k]| == n && |weights[k]| == n - 1;
  }

  /** Row k of the spectrum: eisf·delta plus every spread quasi-elastic line of sites 1..N − 1. */
  function Row(m: Libm, w: seq<real>, q: seq<real>, scale: real, center: real, radius: real, resTime: real,
               sigma: real, n: nat, k: nat): (r: seq<real>)
    requires Sound(m) && sigma != 0.0 && resTime != 0.0 && n > 0 && k < |q|
    ensures |r| == |w|
  {
    ProviderConforms(m, q, radius, resTime, sigma, n, k);
    SitesRow(m, w, scale, center, EquivalentSites.Eisf(m, q, radius, n)[k],
             Spread(EquivalentSites.Qisf(m, q, radius, n), Weights(m, sigma))[k],
             Spread(EquivalentSites.Widths(m, |q|, resTime, n), Ratio(m, sigma))[k])
  }

  /** The per-q loop of sqwJumpSitesLogNormDist, filling the rows of sqw. */
  method Rows(m: Libm, w: seq<real>, scale: real, center: real,
              eisf: seq<real>, qisf: seq<seq<seq<real>>>, hwhm: seq<seq<seq<real>>>)
    returns (rows: seq<seq<real>>)
    requires |qisf| == |eisf| && |hwhm| == |eisf|
    requires forall k :: 0 <= k < |eisf| ==> SitesConform(qisf[k], hwhm[k])
    ensures |rows| == |eisf|
    ensures forall k :: 0 <= k < |eisf| ==> rows[k] == SitesRow(m, w, scale, center, eisf[k], qisf[k], hwhm[k])
  {
    var sqw := new seq<real>[|eisf|](_ => Zeros(|w|));
    for i := 0 to |eisf|
      invariant forall k :: 0 <= k < i ==> sqw[k] == SitesRow(m, w, scale, center, eisf[k], qisf[k], hwhm[k])
    {
      var row := RowForQ(m, w, scale, center, eisf[i], qisf[i], hwhm[i]);
      sqw[i] := row;
    }
    rows := sqw[..];
  }

  /**
   * sqwJumpSitesLogNormDist(w, q, scale, center, Nsites, radius, resTime,
   * sigma): row i starts as eisf[i]·delta and receives
   * qisf[i, j, k]·lorentzian(hwhm[i, j + 1, k]); a single q gives a flat spectrum.
   */
  method Sqw(m: Libm, w: seq<real>, q: seq<real>, scale: real, center: real, Nsites: real, radius: real,
             resTime: real, sigma: real)
    returns (r: Result<Spectrum>)
    requires Sound(m)
    ensures r.Ok? <==> Checked(Nsites, radius, resTime, sigma).Ok?
    ensures r.Err? ==> r.error == Checked(Nsites, radius, resTime, sigma).error
    ensures r.Ok? ==> Shaped(r.value, |q|, |w|)
    ensures r.Ok? ==> resTime > 0.0 && forall i :: 0 <= i < |q| ==>
      RowsOf(r.value)[i] == Row(m, w, q, scale, center, radius, resTime, sigma, Checked(Nsites, radius, resTime, sigma).value, i)
  {
    var c :- Hwhm(m, q, Nsites, radius, resTime, sigma);
    var n := Checked(Nsites, radius, resTime, sigma).value;
    forall k | 0 <= k < |q| ensures SitesConform(c.qisf[k], c.hwhm[k]) {
      ProviderConforms(m, q, radius, resTime, sigma, n, k);
    }
    var rows := Rows(m, w, scale, center, c.eisf, c.qisf, c.hwhm);
    RowsOfReshape(rows, |w|);
    r := Ok(Reshape(rows));
  }
}
