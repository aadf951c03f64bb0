/**
 * A polynomial background: the coefficients are given in ascending order, as
 * a bare number or as a list of numbers, and the polynomial is evaluated at
 * every point of the grid.
 */
module Background {
  import opened Outcome
  import opened Special
  import opened Grids

  /** A list item: an int or a float, or anything else (a string, say). */
  datatype Coefficient = Num(v: real) | NonNumeric

  /** The list_coefficients argument. */
  datatype CoefficientArg =
    | Constant(c: real)                     // a bare int or float
    | CoefficientList(items: seq<Coefficient>)
    | Unsupported                           // any other Python value

  /** numpy's Polynomial(c)(x): Horner's scheme, c0 + x·(c1 + x·(c2 + …)). */
  function Horner(cs: seq<real>, x: real): real {
    if |cs| == 0 then 0.0 else cs[0] + x * Horner(cs[1..], x)
  }

  /** Σ_k cs[k]·x^(e + k): the textbook reading of an ascending coefficient list. */
  function Terms(cs: seq<real>, x: real, e: nat): real {
    if |cs| == 0 then 0.0 else cs[0] * Pow(x, e) + Terms(cs[1..], x, e + 1)
  }

  /** Σ_k cs[k]·x^k */
  function PowerSum(cs: seq<real>, x: real): real {
    Terms(cs, x, 0)
  }

  /** The list items, when they are all numbers. */
  predicate AllNumbers(items: seq<Coefficient>) {
    forall i :: 0 <= i < |items| ==> items[i].Num?
  }

  function Values(items: seq<Coefficient>): (cs: seq<real>)
    requires AllNumbers(items)
    ensures |cs| == |items| && forall i :: 0 <= i < |items| ==> cs[i] == items[i].v
  {
    seq(|items|, i requires 0 <= i < |items| => items[i].v)
  }

  /** The coefficient arguments numpy accepts: a number, or a non-empty list of numbers. */
  predicate Accepted(arg: CoefficientArg) {
    match arg
    case Constant(_) => true
    case CoefficientList(items) => |items| > 0 && AllNumbers(items)
    case Unsupported => false
  }

  /** The ascending coefficients of an accepted argument. */
  function CoefficientsOf(arg: CoefficientArg): seq<real>
    requires Accepted(arg)
  {
    match arg
    case Constant(c) => [c]
    case CoefficientList(items) => Values(items)
  }

  /**
   * background_polynomials(x, list_coefficients). A list with a non-number
   * and any argument that is neither a list nor a number raise ValueError; so
   * does an empty list, which numpy's Polynomial refuses.
   */
  function BackgroundPolynomials(x: ArrayLike, arg: CoefficientArg): (r: Result<seq<real>>)
    ensures r.Ok? ==> |r.value| == |x.Values()|
  {
    match arg
    case CoefficientList(items) =>
      if AllNumbers(items) then
        if |items| == 0 then Err(ValueError(Coefficients))
        else Ok(Evaluate(Values(items), x.Values()))
      else Err(ValueError(Coefficients))
    case Constant(c) => Ok(Evaluate([c], x.Values()))
    case Unsupported => Err(ValueError(Coefficients))
  }

  function Evaluate(cs: seq<real>, xs: seq<real>): (r: seq<real>)
    ensures |r| == |xs|
  {
    seq(|xs|, i requires 0 <= i < |xs| => Horner(cs, xs[i]))
  }

  /** Horner's scheme and the power sum agree: x^e · horner(cs, x) == Σ_k cs[k]·x^(e + k). */
  lemma {:induction false} HornerTerms(cs: seq<real>, x: real, e: nat)
    ensures Pow(x, e) * Horner(cs, x) == Terms(cs, x, e)
  {
    if |cs| > 0 {
      var p := Pow(x, e);
      var h := Horner(cs[1..], x);
      HornerTerms(cs[1..], x, e + 1);
      assert Pow(x, e + 1) == p * x;
      calc {
        p * Horner(cs, x);
        p * (cs[0] + x * h);
        cs[0] * p + (p * x) * h;
        cs[0] * p + Pow(x, e + 1) * h;
        cs[0] * Pow(x, e) + Terms(cs[1..], x, e + 1);
      }
    }
  }

  lemma HornerIsPowerSum(cs: seq<real>, x: real)
    ensures Horner(cs, x) == PowerSum(cs, x)
  {
    HornerTerms(cs, x, 0);
  }

  /**
   * The result is an error exactly for the arguments numpy refuses, with
   * ValueError; otherwise it is Σ_k c_k·x^k at every point of x.
   */
  lemma BackgroundSpec(x: ArrayLike, arg: CoefficientArg)
    ensures BackgroundPolynomials(x, arg).Ok? <==> Accepted(arg)
    ensures !Accepted(arg) ==> BackgroundPolynomials(x, arg) == Err(ValueError(Coefficients))
    ensures Accepted(arg) ==> forall i :: 0 <= i < |x.Values()| ==>
      BackgroundPolynomials(x, arg).value[i] == PowerSum(CoefficientsOf(arg), x.Values()[i])
  {
    if Accepted(arg) {
      var cs := CoefficientsOf(arg);
      forall i | 0 <= i < |x.Values()|
        ensures BackgroundPolynomials(x, arg).value[i] == PowerSum(cs, x.Values()[i])
      {
        HornerIsPowerSum(cs, x.Values()[i]);
      }
    }
  }

  /** A bare number c is the constant c everywhere; the default 0.0 gives zeros. */
  lemma BackgroundConstant(x: ArrayLike, c: real)
    ensures BackgroundPolynomials(x, Constant(c)) == Ok(seq(|x.Values()|, _ => c))
    ensures BackgroundPolynomials(x, Constant(0.0)) == Ok(Zeros(|x.Values()|))
  {
    var xs := x.Values();
    forall i | 0 <= i < |xs| ensures Horner([c], xs[i]) == c && Horner([0.0], xs[i]) == 0.0 {
      HornerConstant(c, xs[i]);
      HornerConstant(0.0, xs[i]);
    }
    assert Evaluate([c], xs) == seq(|xs|, _ => c);
    assert Evaluate([0.0], xs) == Zeros(|xs|);
  }

  lemma HornerConstant(c: real, x: real)
    ensures Horner([c], x) == c
  {
    assert [c][1..] == [];
  }

  /** A list holding a non-number, 'a' say, raises ValueError. */
  lemma BackgroundRejectsNonNumbers(x: ArrayLike, items: seq<Coefficient>, k: nat)
    requires k < |items| && items[k] == NonNumeric
    ensures BackgroundPolynomials(x, CoefficientList(items)) == Err(ValueError(Coefficients))
  {
  }

  /** (5, 1) → 1, (5, [1, 2]) → 11 and ([1, 2, 3], [1, 2, 3]) → [6, 17, 34] */
  lemma BackgroundKnownValues()
    ensures BackgroundPolynomials(Scalar(5.0), Constant(1.0)) == Ok([1.0])
    ensures BackgroundPolynomials(Scalar(5.0), CoefficientList([Num(1.0), Num(2.0)])) == Ok([11.0])
    ensures BackgroundPolynomials(Items([1.0, 2.0, 3.0]), CoefficientList([Num(1.0), Num(2.0), Num(3.0)]))
      == Ok([6.0, 17.0, 34.0])
  {
    HornerConstant(1.0, 5.0);
    assert Evaluate([1.0], [5.0]) == [1.0];
    assert Values([Num(1.0), Num(2.0)]) == [1.0, 2.0];
    assert Horner([1.0, 2.0], 5.0) == 11.0 by {
      assert [1.0, 2.0][1..] == [2.0];
      HornerConstant(2.0, 5.0);
    }
    assert Evaluate([1.0, 2.0], [5.0]) == [11.0];
    assert Values([Num(1.0), Num(2.0), Num(3.0)]) == [1.0, 2.0, 3.0];
    var cs := [1.0, 2.0, 3.0];
    forall x | x in [1.0, 2.0, 3.0] ensures Horner(cs, x) == 1.0 + x * (2.0 + x * 3.0) {
      assert cs[1..] == [2.0, 3.0] && cs[1..][1..] == [3.0];
      HornerConstant(3.0, x);
    }
    assert Evaluate(cs, [1.0, 2.0, 3.0]) == [6.0, 17.0, 34.0];
  }
}
