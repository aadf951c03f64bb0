/**
 * The numpy vocabulary the models share: energy and momentum grids as
 * sequences, elementwise scaling and accumulation of rows, sums, and the
 * (q.size, w.size) spectrum that is flattened when there is a single q.
 */
module Grids {
  import opened Outcome

  /** An argument that may be a bare number or a list of numbers. */
  datatype ArrayLike = Scalar(v: real) | Items(items: seq<real>) {
    /** A bare int or float is read as a one-element list. */
    function Values(): (r: seq<real>)
      ensures Scalar? ==> r == [v]
      ensures Items? ==> r == items
    {
      match this
      case Scalar(v) => [v]
      case Items(items) => items
    }
  }

  /**
   * p[i] for a per-q parameter: a bare number cannot be subscripted
   * (TypeError) and a list shorter than i + 1 raises IndexError.
   */
  function Lookup(p: ArrayLike, i: nat): (r: Result<real>)
    ensures r.Ok? <==> p.Items? && i < |p.items|
    ensures r.Ok? ==> r.value == p.items[i]
    ensures p.Scalar? ==> r == Err(TypeError)
    ensures p.Items? && i >= |p.items| ==> r == Err(IndexError)
  {
    match p
    case Scalar(_) => Err(TypeError)
    case Items(items) => if i < |items| then Ok(items[i]) else Err(IndexError)
  }

  /** p[i] where it exists, 0 otherwise: the value a successful read returns. */
  function Item(p: ArrayLike, i: nat): (r: real)
    ensures p.Items? && i < |p.items| ==> r == p.items[i]
  {
    if p.Items? && i < |p.items| then p.items[i] else 0.0
  }

  /** Every parameter is a list with at least n items: p[i] succeeds for every i < n. */
  predicate AllLong(ps: seq<ArrayLike>, n: nat) {
    forall t :: 0 <= t < |ps| ==> ps[t].Items? && |ps[t].items| >= n
  }

  /** Parameters long enough for n reads are long enough for fewer. */
  lemma AllLongShorter(ps: seq<ArrayLike>, k: nat, n: nat)
    requires k <= n && AllLong(ps, n)
    ensures AllLong(ps, k)
  {
  }

  /**
   * The error of a loop that reads p[i] for each parameter in turn and each
   * i in turn, when some read fails: the first parameter that is a bare
   * number or an empty list decides it at i = 0, and any later failure is
   * an IndexError.
   */
  function FirstLookupError(ps: seq<ArrayLike>): Error {
    if |ps| == 0 then IndexError
    else if ps[0].Scalar? then TypeError
    else if |ps[0].items| == 0 then IndexError
    else FirstLookupError(ps[1..])
  }

  /** Once every parameter has an item, the first failure can only be an IndexError. */
  lemma {:induction false} FirstLookupErrorLate(ps: seq<ArrayLike>)
    requires AllLong(ps, 1)
    ensures FirstLookupError(ps) == IndexError
  {
    if |ps| > 0 {
      FirstLookupErrorLate(ps[1..]);
    }
  }

  /** np.zeros(n) */
  function Zeros(n: nat): (r: seq<real>)
    ensures |r| == n && forall i :: 0 <= i < n ==> r[i] == 0.0
  {
    seq(n, _ => 0.0)
  }

  /** np.ones(n) */
  function Ones(n: nat): (r: seq<real>)
    ensures |r| == n && forall i :: 0 <= i < n ==> r[i] == 1.0
  {
    seq(n, _ => 1.0)
  }

  /** k * s, elementwise */
  function Scaled(k: real, s: seq<real>): (r: seq<real>)
    ensures |r| == |s| && forall i :: 0 <= i < |s| ==> r[i] == k * s[i]
  {
    seq(|s|, i requires 0 <= i < |s| => k * s[i])
  }

  /** acc + k * s, elementwise: the `row += k * line` of the synthesisers */
  function AddScaled(acc: seq<real>, k: real, s: seq<real>): (r: seq<real>)
    requires |acc| == |s|
    ensures |r| == |acc| && forall i :: 0 <= i < |acc| ==> r[i] == acc[i] + k * s[i]
  {
    seq(|acc|, i requires 0 <= i < |acc| => acc[i] + k * s[i])
  }

  /** np.sum, accumulated from the left */
  function Sum(s: seq<real>): real {
    if |s| == 0 then 0.0 else Sum(s[..|s| - 1]) + s[|s| - 1]
  }

  function Min(s: seq<real>): (r: real)
    requires |s| > 0
    ensures forall i :: 0 <= i < |s| ==> r <= s[i]
  {
    if |s| == 1 then s[0]
    else
      var p := Min(s[..|s| - 1]);
      if s[|s| - 1] < p then s[|s| - 1] else p
  }

  function Max(s: seq<real>): (r: real)
    requires |s| > 0
    ensures forall i :: 0 <= i < |s| ==> s[i] <= r
  {
    if |s| == 1 then s[0]
    else
      var p := Max(s[..|s| - 1]);
      if s[|s| - 1] > p then s[|s| - 1] else p
  }

  lemma SumScaled(k: real, s: seq<real>)
    ensures Sum(Scaled(k, s)) == k * Sum(s)
  {
    if |s| > 0 {
      var t := s[..|s| - 1];
      assert Scaled(k, s)[..|s| - 1] == Scaled(k, t) by {
        forall i | 0 <= i < |t| ensures Scaled(k, s)[i] == Scaled(k, t)[i] {
          assert t[i] == s[i];
        }
      }
      SumScaled(k, s[..|s| - 1]);
    }
  }

  /** The sum taken from the front: s[0] + Σ s[1..]. */
  lemma {:induction false} SumFront(s: seq<real>)
    requires |s| > 0
    ensures Sum(s) == s[0] + Sum(s[1..])
  {
    if |s| > 1 {
      var init := s[..|s| - 1];
      SumFront(init);
      assert init[1..] == s[1..][..|s[1..]| - 1];
      assert init[0] == s[0];
    } else {
      assert s[1..] == [];
    }
  }

  /** The sum of a concatenation is the sum of the parts. */
  lemma {:induction false} SumConcat(a: seq<real>, b: seq<real>)
    ensures Sum(a + b) == Sum(a) + Sum(b)
  {
    if |b| > 0 {
      var n := |b| - 1;
      SumConcat(a, b[..n]);
      assert (a + b)[..|a + b| - 1] == a + b[..n];
    } else {
      assert a + b == a;
    }
  }

  /** The rows of a table laid end to end, first row first. */
  function Flatten(s: seq<seq<real>>): seq<real> {
    if |s| == 0 then [] else Flatten(s[..|s| - 1]) + s[|s| - 1]
  }

  /** Tables of the same shape flatten to sequences of the same length. */
  lemma {:induction false} FlattenSameShape(a: seq<seq<real>>, b: seq<seq<real>>)
    requires |a| == |b| && forall j :: 0 <= j < |a| ==> |a[j]| == |b[j]|
    ensures |Flatten(a)| == |Flatten(b)|
  {
    if |a| > 0 {
      FlattenSameShape(a[..|a| - 1], b[..|b| - 1]);
    }
  }

  /** The sum of a flattened table is the sum of its row sums. */
  function RowSums(s: seq<seq<real>>): (r: seq<real>)
    ensures |r| == |s| && forall j :: 0 <= j < |s| ==> r[j] == Sum(s[j])
  {
    seq(|s|, j requires 0 <= j < |s| => Sum(s[j]))
  }

  lemma {:induction false} SumFlatten(s: seq<seq<real>>)
    ensures Sum(Flatten(s)) == Sum(RowSums(s))
  {
    if |s| > 0 {
      var n := |s| - 1;
      SumFlatten(s[..n]);
      SumConcat(Flatten(s[..n]), s[n]);
      assert RowSums(s)[..n] == RowSums(s[..n]);
    }
  }

  lemma SumPositive(s: seq<real>)
    requires |s| > 0
    requires forall i :: 0 <= i < |s| ==> s[i] > 0.0
    ensures Sum(s) > 0.0
  {
    if |s| > 1 {
      SumPositive(s[..|s| - 1]);
    }
  }

  /**
   * A spectrum as the synthesisers return it: a (q.size, w.size) surface,
   * or, when q.size == 1, that single row flattened to w.size.
   */
  datatype Spectrum = Flat(values: seq<real>) | Surface(rows: seq<seq<real>>)

  /** np.reshape(sqw, w.size) when q.size == 1, the buffer itself otherwise */
  function Reshape(rows: seq<seq<real>>): (r: Spectrum)
    ensures r.Flat? <==> |rows| == 1
  {
    if |rows| == 1 then Flat(rows[0]) else Surface(rows)
  }

  /** The rows of a spectrum; a flat spectrum is a single row. */
  function RowsOf(s: Spectrum): seq<seq<real>> {
    match s
    case Flat(values) => [values]
    case Surface(rows) => rows
  }

  /** The shape the synthesisers promise for nq momentum and nw energy values. */
  predicate Shaped(s: Spectrum, nq: nat, nw: nat) {
    && (s.Flat? <==> nq == 1)
    && |RowsOf(s)| == nq
    && forall i :: 0 <= i < nq ==> |RowsOf(s)[i]| == nw
  }

  /** Flattening loses nothing: the rows of a reshaped buffer are the buffer. */
  lemma RowsOfReshape(rows: seq<seq<real>>, nw: nat)
    requires forall i :: 0 <= i < |rows| ==> |rows[i]| == nw
    ensures RowsOf(Reshape(rows)) == rows
    ensures Shaped(Reshape(rows), |rows|, nw)
  {
    if |rows| == 1 {
      assert [rows[0]] == rows;
    }
  }

  /** The value and the rows-by-columns contents of a filled 2-D buffer. */
  function Rows<T>(a: array2<T>): (r: seq<seq<T>>)
    reads a
    ensures |r| == a.Length0
    ensures forall i :: 0 <= i < a.Length0 ==> |r[i]| == a.Length1
    ensures forall i, j :: 0 <= i < a.Length0 && 0 <= j < a.Length1 ==> r[i][j] == a[i, j]
  {
    seq(a.Length0, i requires 0 <= i < a.Length0 reads a =>
      seq(a.Length1, j requires 0 <= j < a.Length1 reads a => a[i, j]))
  }

  /** A filled 2-D buffer holds the rows s when it agrees with them cell by cell. */
  lemma RowsAgree(a: array2<real>, s: seq<seq<real>>)
    requires |s| == a.Length0 && forall i :: 0 <= i < |s| ==> |s[i]| == a.Length1
    requires forall i, j :: 0 <= i < a.Length0 && 0 <= j < a.Length1 ==> a[i, j] == s[i][j]
    ensures Rows(a) == s
  {
    var r := Rows(a);
    forall i | 0 <= i < |s| ensures r[i] == s[i] {
      assert |r[i]| == |s[i]|;
      forall j | 0 <= j < |s[i]| ensures r[i][j] == s[i][j] {
        assert r[i][j] == a[i, j];
      }
    }
  }

  /** Column j of a 2-D buffer, a[:, j]. */
  function Column(a: array2<real>, j: nat): (r: seq<real>)
    requires j < a.Length1
    reads a
    ensures |r| == a.Length0 && forall i :: 0 <= i < a.Length0 ==> r[i] == a[i, j]
  {
    seq(a.Length0, i requires 0 <= i < a.Length0 reads a => a[i, j])
  }

  /** a[:, j] = col */
  method SetColumn(a: array2<real>, j: nat, col: seq<real>)
    requires j < a.Length1 && |col| == a.Length0
    modifies a
    ensures forall i, l :: 0 <= i < a.Length0 && 0 <= l < a.Length1 ==>
      a[i, l] == if l == j then col[i] else old(a[i, l])
  {
    for i := 0 to a.Length0
      invariant forall i', l :: 0 <= i' < a.Length0 && 0 <= l < a.Length1 ==>
        a[i', l] == if l == j && i' < i then col[i'] else old(a[i', l])
    {
      a[i, j] := col[i];
    }
  }

  /** a[idx, j] = v, where idx = np.argwhere(arg == 0) */
  method SetColumnWhereZero(a: array2<real>, j: nat, arg: seq<real>, v: real)
    requires j < a.Length1 && |arg| == a.Length0
    modifies a
    ensures forall i, l :: 0 <= i < a.Length0 && 0 <= l < a.Length1 ==>
      a[i, l] == if l == j && arg[i] == 0.0 then v else old(a[i, l])
  {
    for i := 0 to a.Length0
      invariant forall i', l :: 0 <= i' < a.Length0 && 0 <= l < a.Length1 ==>
        a[i', l] == if l == j && i' < i && arg[i'] == 0.0 then v else old(a[i', l])
    {
      if arg[i] == 0.0 {
        a[i, j] := v;
      }
    }
  }

  /** The components every width provider returns. */
  datatype Components<H, Q> = Components(hwhm: H, eisf: seq<real>, qisf: Q)

  /**
   * The components of a provider with a single Lorentzian: n widths, an
   * elastic fraction of 0 and a quasi-elastic fraction of 1 at every q.
   */
  predicate SingleLine(c: Components<seq<real>, seq<real>>, n: nat) {
    |c.hwhm| == n && c.eisf == Zeros(n) && c.qisf == Ones(n)
  }
}
