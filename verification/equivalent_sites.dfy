/**
 * Jumps between N equivalent sites on a circle (Barnes): N − 1 Lorentzians
 * whose widths are (2/resTime)·sin²(iπ/N), weighted by the discrete cosine
 * transform of the sinc of q times the jump distances.
 */
module EquivalentSites {
  import opened Outcome
  import opened Special
  import opened Grids
  import opened DeltaShape
  import opened Spectra

  /**
   * The checks of hwhmEquivalentSitesCircle, in their order: radius, the sign
   * of resTime, Nsites; then the division 2.0 / resTime. The number of sites
   * is truncated only after the check.
   */
  function Sites(Nsites: real, radius: real, resTime: real): (r: Result<nat>)
    ensures r.Ok? <==> radius > 0.0 && resTime > 0.0 && Nsites >= 2.0
    ensures radius <= 0.0 ==> r == Err(ValueError(Radius))
    ensures radius > 0.0 && resTime < 0.0 ==> r == Err(ValueError(ResidenceTime))
    ensures radius > 0.0 && resTime >= 0.0 && Nsites < 2.0 ==> r == Err(ValueError(NumberOfSites))
    ensures radius > 0.0 && resTime == 0.0 && Nsites >= 2.0 ==> r == Err(ZeroDivisionError)
    ensures r.Ok? ==> r.value >= 2 && r.value as real <= Nsites < r.value as real + 1.0
  {
    if radius <= 0.0 then Err(ValueError(Radius))
    else if resTime < 0.0 then Err(ValueError(ResidenceTime))
    else if Nsites < 2.0 then Err(ValueError(NumberOfSites))
    else if resTime == 0.0 then Err(ZeroDivisionError)
    else Ok(Nsites.Floor as nat)
  }

  /** i·π/N */
  function SiteAngle(m: Libm, i: nat, n: nat): real
    requires n > 0
  {
    (i as real) * m.pi / (n as real)
  }

  /** (2/resTime)·sin²(iπ/N) */
  function Width(m: Libm, resTime: real, i: nat, n: nat): real
    requires resTime != 0.0 && n > 0
  {
    2.0 / resTime * Sq(m.sin(SiteAngle(m, i, n)))
  }

  /** The widths of the N sites. */
  function WidthRow(m: Libm, resTime: real, n: nat): (r: seq<real>)
    requires resTime != 0.0 && n > 0
    ensures |r| == n
  {
    seq(n, i requires 0 <= i < n => Width(m, resTime, i, n))
  }

  /** The widths tiled over the q rows. */
  function Widths(m: Libm, nq: nat, resTime: real, n: nat): (r: seq<seq<real>>)
    requires resTime != 0.0 && n > 0
    ensures |r| == nq && forall k :: 0 <= k < nq ==> r[k] == WidthRow(m, resTime, n)
  {
    seq(nq, _ => WidthRow(m, resTime, n))
  }

  /** 2·radius·sin(jπ/N) */
  function JumpDistance(m: Libm, radius: real, j: nat, n: nat): real
    requires n > 0
  {
    2.0 * radius * m.sin(SiteAngle(m, j, n))
  }

  /** sin(x)/x, and 1 where x = 0 */
  function SphBessel(m: Libm, x: real): real {
    if x == 0.0 then 1.0 else m.sin(x) / x
  }

  /** QR = q·jump_distance, one cell of np.outer(q, jump_distance) */
  function QR(m: Libm, qk: real, radius: real, j: nat, n: nat): real
    requires n > 0
  {
    qk * JumpDistance(m, radius, j, n)
  }

  /** The sphBessel row of momentum transfer qk. */
  function Bessels(m: Libm, qk: real, radius: real, n: nat): (r: seq<real>)
    requires n > 0
    ensures |r| == n
  {
    seq(n, j requires 0 <= j < n => SphBessel(m, QR(m, qk, radius, j, n)))
  }

  /** b[j]·cos(2ijπ/N) */
  function Weighted(m: Libm, b: seq<real>, i: nat, j: nat, n: nat): real
    requires n > 0 && j < |b|
  {
    b[j] * m.cos(CosArg(m, i, j, n))
  }

  /** Σ_{j<J} b[j]·cos(2ijπ/N) */
  function Inner(m: Libm, b: seq<real>, i: nat, n: nat, J: nat): real
    requires n > 0 && J <= |b|
  {
    if J == 0 then 0.0 else Inner(m, b, i, n, J - 1) + Weighted(m, b, i, J - 1, n)
  }

  /** The isf row of one q: isf[i] = (1/N)·Σ_j b[j]·cos(2ijπ/N). */
  function IsfRow(m: Libm, b: seq<real>, n: nat): (r: seq<real>)
    requires n > 0 && |b| == n
    ensures |r| == n
  {
    seq(n, i requires 0 <= i < n => Inner(m, b, i, n, n) / (n as real))
  }

  /** The whole sphBessel table, one row per q. */
  function BesselTable(m: Libm, q: seq<real>, radius: real, n: nat): (r: seq<seq<real>>)
    requires n > 0
    ensures |r| == |q| && forall k :: 0 <= k < |q| ==> r[k] == Bessels(m, q[k], radius, n)
  {
    seq(|q|, k requires 0 <= k < |q| => Bessels(m, q[k], radius, n))
  }

  function Isf(m: Libm, q: seq<real>, radius: real, n: nat): (r: seq<seq<real>>)
    requires n > 0
    ensures |r| == |q| && forall k :: 0 <= k < |q| ==> |r[k]| == n
  {
    seq(|q|, k requires 0 <= k < |q| => IsfRow(m, Bessels(m, q[k], radius, n), n))
  }

  /** isf[:, 0] */
  function Eisf(m: Libm, q: seq<real>, radius: real, n: nat): (r: seq<real>)
    requires n > 0
    ensures |r| == |q|
  {
    seq(|q|, k requires 0 <= k < |q| => Isf(m, q, radius, n)[k][0])
  }

  /** isf[:, 1:], of shape (q.size, N − 1) */
  function Qisf(m: Libm, q: seq<real>, radius: real, n: nat): (r: seq<seq<real>>)
    requires n > 0
    ensures |r| == |q| && forall k :: 0 <= k < |q| ==> |r[k]| == n - 1
  {
    var isf := Isf(m, q, radius, n);
    seq(|q|, k requires 0 <= k < |q| => isf[k][1..])
  }

  /** The first site is the starting point: its width is zero. */
  lemma WidthAtFirstSite(m: Libm, resTime: real, n: nat)
    requires Sound(m) && resTime != 0.0 && n > 0
    ensures WidthRow(m, resTime, n)[0] == 0.0
  {
    assert SiteAngle(m, 0, n) == 0.0;
    assert Sq(m.sin(0.0)) == 0.0;
  }

  /** A positive residence time gives widths that are never negative. */
  lemma WidthsNonNegative(m: Libm, resTime: real, n: nat)
    requires resTime > 0.0 && n > 0
    ensures forall i :: 0 <= i < n ==> WidthRow(m, resTime, n)[i] >= 0.0
  {
    forall i | 0 <= i < n ensures WidthRow(m, resTime, n)[i] >= 0.0 {
      var s := Sq(m.sin(SiteAngle(m, i, n)));
      SqNonNegative(m.sin(SiteAngle(m, i, n)));
      var c := 2.0 / resTime;
      assert c > 0.0;
      assert c * s >= 0.0;
    }
  }

  /** Sites i and N − i are at the same distance: hwhm[:, i] == hwhm[:, N − i]. */
  lemma WidthsSymmetric(m: Libm, resTime: real, n: nat, i: nat)
    requires Sound(m) && resTime != 0.0 && 0 < i < n
    ensures WidthRow(m, resTime, n)[i] == WidthRow(m, resTime, n)[n - i]
  {
    var p: real := m.pi;
    var N := n as real;
    var a := SiteAngle(m, i, n);
    var b := SiteAngle(m, n - i, n);
    assert (n - i) as real == N - i as real;
    calc {
      a + b;
      (i as real) * p * (1.0 / N) + (N - i as real) * p * (1.0 / N);
      N * p * (1.0 / N);
      p * (N * (1.0 / N));
      p;
    }
    assert m.sin(a) == m.sin(b);
  }

  /** The first jump distance is zero, so sphBessel[:, 0] is always 1. */
  lemma BesselAtFirstSite(m: Libm, qk: real, radius: real, n: nat)
    requires Sound(m) && n > 0
    ensures Bessels(m, qk, radius, n)[0] == 1.0
  {
    assert SiteAngle(m, 0, n) == 0.0;
    assert JumpDistance(m, radius, 0, n) == 0.0;
    assert QR(m, qk, radius, 0, n) == 0.0;
  }

  /** Σ_{i<I} Inner(b, i, N, J): the sum of the un-normalised isf row. */
  function Total(m: Libm, b: seq<real>, n: nat, I: nat, J: nat): real
    requires n > 0 && J <= |b|
  {
    if I == 0 then 0.0 else Total(m, b, n, I - 1, J) + Inner(m, b, I - 1, n, J)
  }

  /** Σ_{j<J} b[j]·Σ_{i<I} cos(2ijπ/N): the same double sum, summed over i first. */
  function Swapped(m: Libm, b: seq<real>, n: nat, I: nat, J: nat): real
    requires n > 0 && J <= |b|
  {
    if J == 0 then 0.0 else Swapped(m, b, n, I, J - 1) + b[J - 1] * CosSum(m, n, J - 1, I)
  }

  lemma {:induction false} SwappedAtZero(m: Libm, b: seq<real>, n: nat, J: nat)
    requires n > 0 && J <= |b|
    ensures Swapped(m, b, n, 0, J) == 0.0
  {
    if J > 0 {
      SwappedAtZero(m, b, n, J - 1);
    }
  }

  lemma {:induction false} SwapStep(m: Libm, b: seq<real>, n: nat, I: nat, J: nat)
    requires n > 0 && J <= |b|
    ensures Swapped(m, b, n, I, J) + Inner(m, b, I, n, J) == Swapped(m, b, n, I + 1, J)
  {
    if J > 0 {
      SwapStep(m, b, n, I, J - 1);
      var c := m.cos(CosArg(m, I, J - 1, n));
      assert CosSum(m, n, J - 1, I + 1) == CosSum(m, n, J - 1, I) + c;
      assert Weighted(m, b, I, J - 1, n) == b[J - 1] * c;
      var x := b[J - 1];
      assert x * (CosSum(m, n, J - 1, I) + c) == x * CosSum(m, n, J - 1, I) + x * c;
    }
  }

  /** Exchanging the order of the double sum. */
  lemma {:induction false} SwapSums(m: Libm, b: seq<real>, n: nat, I: nat, J: nat)
    requires n > 0 && J <= |b|
    ensures Total(m, b, n, I, J) == Swapped(m, b, n, I, J)
  {
    if I == 0 {
      SwappedAtZero(m, b, n, J);
    } else {
      SwapSums(m, b, n, I - 1, J);
      SwapStep(m, b, n, I - 1, J);
    }
  }

  /** At frequency zero every cosine is 1. */
  lemma {:induction false} CosSumAtZeroFrequency(m: Libm, n: nat, k: nat)
    requires Sound(m) && n > 0
    ensures CosSum(m, n, 0, k) == k as real
  {
    if k > 0 {
      CosSumAtZeroFrequency(m, n, k - 1);
      assert CosArg(m, k - 1, 0, n) == 0.0;
    }
  }

  /** Over a full period only the frequency-zero column survives. */
  lemma {:induction false} SwappedFullPeriod(m: Libm, b: seq<real>, n: nat, J: nat)
    requires Sound(m) && n > 0 && 0 < J <= n == |b|
    ensures Swapped(m, b, n, n, J) == b[0] * (n as real)
  {
    if J == 1 {
      CosSumAtZeroFrequency(m, n, n);
      assert Swapped(m, b, n, n, 0) == 0.0;
    } else {
      SwappedFullPeriod(m, b, n, J - 1);
      assert CosSum(m, n, J - 1, n) == 0.0;
    }
  }

  lemma DivideSum(t: real, x: real, N: real)
    requires N > 0.0
    ensures t / N + x / N == (t + x) / N
  {
  }

  /** The prefix sums of an isf row are the prefix totals divided by N. */
  lemma {:induction false} IsfRowPrefix(m: Libm, b: seq<real>, n: nat, I: nat)
    requires n > 0 && |b| == n && I <= n
    ensures Sum(IsfRow(m, b, n)[..I]) == Total(m, b, n, I, n) / (n as real)
  {
    var row := IsfRow(m, b, n);
    var N := n as real;
    if I == 0 {
      assert row[..0] == [];
    } else {
      IsfRowPrefix(m, b, n, I - 1);
      assert row[..I][..I - 1] == row[..I - 1];
      var t := Total(m, b, n, I - 1, n);
      var x := Inner(m, b, I - 1, n, n);
      assert Sum(row[..I]) == t / N + x / N;
      DivideSum(t, x, N);
    }
  }

  /** An isf row whose first sinc value is 1 sums to 1. */
  lemma IsfRowSum(m: Libm, b: seq<real>, n: nat)
    requires Sound(m) && n > 0 && |b| == n && b[0] == 1.0
    ensures Sum(IsfRow(m, b, n)) == 1.0
  {
    var row := IsfRow(m, b, n);
    var N := n as real;
    IsfRowPrefix(m, b, n, n);
    assert row[..n] == row;
    SwapSums(m, b, n, n, n);
    SwappedFullPeriod(m, b, n, n);
    assert Total(m, b, n, n, n) == N;
    assert Sum(row) == N / N;
  }

  /**
   * Each isf row sums to sphBessel[0], which is 1: the elastic and the
   * quasi-elastic fractions of every q share the whole intensity.
   */
  lemma Normalised(m: Libm, q: seq<real>, radius: real, n: nat, k: nat)
    requires Sound(m) && n > 0 && k < |q|
    ensures Eisf(m, q, radius, n)[k] + Sum(Qisf(m, q, radius, n)[k]) == 1.0
  {
    var b := Bessels(m, q[k], radius, n);
    var row := IsfRow(m, b, n);
    assert Isf(m, q, radius, n)[k] == row;
    assert Eisf(m, q, radius, n)[k] == row[0];
    assert Qisf(m, q, radius, n)[k] == row[1..];
    BesselAtFirstSite(m, q[k], radius, n);
    IsfRowSum(m, b, n);
    SumFront(row);
  }

  /** At q = 0 all the intensity is elastic: eisf = 1 and the qisf sum to 0. */
  lemma AtZeroMomentum(m: Libm, q: seq<real>, radius: real, n: nat, k: nat)
    requires Sound(m) && n > 0 && k < |q| && q[k] == 0.0
    ensures Eisf(m, q, radius, n)[k] == 1.0
    ensures Sum(Qisf(m, q, radius, n)[k]) == 0.0
  {
    var b := Bessels(m, q[k], radius, n);
    forall j | 0 <= j < n ensures b[j] == 1.0 {
      assert QR(m, q[k], radius, j, n) == 0.0;
    }
    InnerAtZeroFrequency(m, b, n, n);
    var N := n as real;
    var row := IsfRow(m, b, n);
    assert row[0] == N / N;
    assert Isf(m, q, radius, n)[k] == row;
    assert Eisf(m, q, radius, n)[k] == row[0];
    Normalised(m, q, radius, n, k);
  }

  lemma {:induction false} InnerAtZeroFrequency(m: Libm, b: seq<real>, n: nat, J: nat)
    requires Sound(m) && n > 0 && J <= |b| && forall j :: 0 <= j < |b| ==> b[j] == 1.0
    ensures Inner(m, b, 0, n, J) == J as real
  {
    if J > 0 {
      InnerAtZeroFrequency(m, b, n, J - 1);
      assert CosArg(m, 0, J - 1, n) == 0.0;
      assert Weighted(m, b, 0, J - 1, n) == 1.0;
    }
  }

  /** sphBessel: ones, with sin(QR)/QR written where QR = q·jump_distance is not zero. */
  method SphBesselTable(m: Libm, q: seq<real>, radius: real, n: nat) returns (b: array2<real>)
    requires n > 0
    ensures fresh(b) && b.Length0 == |q| && b.Length1 == n
    ensures forall k, j :: 0 <= k < |q| && 0 <= j < n ==> b[k, j] == Bessels(m, q[k], radius, n)[j]
  {
    b := new real[|q|, n]((_, _) => 1.0);
    for k := 0 to |q|
      invariant forall k', j :: 0 <= k' < |q| && 0 <= j < n ==>
        b[k', j] == if k' < k then Bessels(m, q[k'], radius, n)[j] else 1.0
    {
      for j := 0 to n
        invariant forall k', j' :: 0 <= k' < |q| && 0 <= j' < n ==>
          b[k', j'] == if k' < k || (k' == k && j' < j) then Bessels(m, q[k'], radius, n)[j'] else 1.0
      {
        var qr := QR(m, q[k], radius, j, n);
        if qr != 0.0 {
          b[k, j] := m.sin(qr) / qr;
        }
      }
    }
  }

  /** isf[:, i] += sphBessel[:, j]·cos(2ijπ/N) */
  method AddWeightedColumn(m: Libm, isf: array2<real>, b: array2<real>, ghost table: seq<seq<real>>, n: nat, i: nat, j: nat)
    requires n > 0 && i < n && j < n && isf != b
    requires isf.Length0 == b.Length0 == |table| && isf.Length1 == b.Length1 == n
    requires forall k :: 0 <= k < |table| ==> |table[k]| == n
    requires forall k :: 0 <= k < |table| ==> b[k, j] == table[k][j]
    requires forall k :: 0 <= k < |table| ==> isf[k, i] == Inner(m, table[k], i, n, j)
    modifies isf
    ensures forall k, l :: 0 <= k < |table| && 0 <= l < n ==>
      isf[k, l] == if l == i then Inner(m, table[k], i, n, j + 1) else old(isf[k, l])
  {
    var nq := isf.Length0;
    var col := Column(isf, i);
    var bj := Column(b, j);
    var c := m.cos(CosArg(m, i, j, n));
    var next := seq(nq, k requires 0 <= k < nq => col[k] + bj[k] * c);
    forall k | 0 <= k < nq ensures next[k] == Inner(m, table[k], i, n, j + 1) {
      assert Weighted(m, table[k], i, j, n) == bj[k] * c;
    }
    SetColumn(isf, i, next);
  }

  /** The j loop of isf[:, i], then isf[:, i] /= N. */
  method FillIsfColumn(m: Libm, isf: array2<real>, b: array2<real>, ghost table: seq<seq<real>>, n: nat, i: nat)
    requires n > 0 && i < n && isf != b
    requires isf.Length0 == b.Length0 == |table| && isf.Length1 == b.Length1 == n
    requires forall k :: 0 <= k < |table| ==> |table[k]| == n
    requires forall k, j :: 0 <= k < |table| && 0 <= j < n ==> b[k, j] == table[k][j]
    requires forall k :: 0 <= k < |table| ==> isf[k, i] == 0.0
    modifies isf
    ensures forall k, l :: 0 <= k < |table| && 0 <= l < n ==>
      isf[k, l] == if l == i then IsfRow(m, table[k], n)[i] else old(isf[k, l])
  {
    var nq := isf.Length0;
    for j := 0 to n
      invariant forall k :: 0 <= k < nq ==> isf[k, i] == Inner(m, table[k], i, n, j)
      invariant forall k, l :: 0 <= k < nq && 0 <= l < n && l != i ==> isf[k, l] == old(isf[k, l])
    {
      AddWeightedColumn(m, isf, b, table, n, i, j);
    }
    var col := Column(isf, i);
    SetColumn(isf, i, seq(nq, k requires 0 <= k < nq => col[k] / (n as real)));
  }

  /**
   * hwhmEquivalentSitesCircle(q, Nsites, radius, resTime): the widths tiled
   * over q, the masked sinc table, and the cosine sums column by column.
   */
  method Hwhm(m: Libm, q: seq<real>, Nsites: real, radius: real, resTime: real)
    returns (r: Result<Components<seq<seq<real>>, seq<seq<real>>>>)
    ensures r.Ok? <==> Sites(Nsites, radius, resTime).Ok?
    ensures r.Err? ==> r.error == Sites(Nsites, radius, resTime).error
    ensures r.Ok? ==> resTime > 0.0 && Sites(Nsites, radius, resTime).value > 0
    ensures r.Ok? ==>
      var n := Sites(Nsites, radius, resTime).value;
      r.value == Components(Widths(m, |q|, resTime, n), Eisf(m, q, radius, n), Qisf(m, q, radius, n))
  {
    var n :- Sites(Nsites, radius, resTime);
    var hwhm := Widths(m, |q|, resTime, n);
    var b := SphBesselTable(m, q, radius, n);
    var isf := new real[|q|, n]((_, _) => 0.0);
    for i := 0 to n
      modifies isf
      invariant forall k, l :: 0 <= k < |q| && 0 <= l < n ==>
        isf[k, l] == if l < i then Isf(m, q, radius, n)[k][l] else 0.0
    {
      FillIsfColumn(m, isf, b, BesselTable(m, q, radius, n), n, i);
    }
    RowsAgree(isf, Isf(m, q, radius, n));
    var rows := Rows(isf);
    var eisf := seq(|q|, k requires 0 <= k < |q| => rows[k][0]);
    var qisf := seq(|q|, k requires 0 <= k < |q| => rows[k][1..]);
    r := Ok(Components(hwhm, eisf, qisf));
  }

  /** Row k of the spectrum: eisf·delta plus qisf[j]·lorentzian(hwhm[j + 1]). */
  function Row(m: Libm, w: seq<real>, q: seq<real>, scale: real, center: real, radius: real, resTime: real, n: nat, k: nat): (r: seq<real>)
    requires resTime != 0.0 && n > 0 && k < |q|
    ensures |r| == |w|
  {
    QensRow(m, w, scale, center, Eisf(m, q, radius, n)[k], Qisf(m, q, radius, n)[k], WidthRow(m, resTime, n)[1..])
  }

  /**
   * sqwEquivalentSitesCircle(w, q, scale, center, Nsites, radius, resTime):
   * row i starts as eisf[i]·delta and receives qisf[i, j]·lorentzian(hwhm[i, j + 1])
   * for j < N − 1; a single q gives a flat spectrum.
   */
  method Sqw(m: Libm, w: seq<real>, q: seq<real>, scale: real, center: real, Nsites: real, radius: real, resTime: real)
    returns (r: Result<Spectrum>)
    ensures r.Ok? <==> Sites(Nsites, radius, resTime).Ok?
    ensures r.Err? ==> r.error == Sites(Nsites, radius, resTime).error
    ensures r.Ok? ==> Shaped(r.value, |q|, |w|)
    ensures r.Ok? ==> resTime > 0.0 && forall i :: 0 <= i < |q| ==>
      RowsOf(r.value)[i] == Row(m, w, q, scale, center, radius, resTime, Sites(Nsites, radius, resTime).value, i)
  {
    var c :- Hwhm(m, q, Nsites, radius, resTime);
    var n := Sites(Nsites, radius, resTime).value;
    var sqw := new seq<real>[|q|](_ => Zeros(|w|));
    for i := 0 to |q|
      invariant forall k :: 0 <= k < i ==> sqw[k] == Row(m, w, q, scale, center, radius, resTime, n, k)
    {
      var row := BuildRow(m, w, scale, center, c.eisf[i], c.qisf[i], c.hwhm[i][1..]);
      sqw[i] := row;
    }
    RowsOfReshape(sqw[..], |w|);
    r := Ok(Reshape(sqw[..]));
  }
}
