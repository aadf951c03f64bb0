/**
 * The numeric library the models call (numpy and scipy.special).
 *
 * The transcendental functions are not computed: they are the fields of a
 * `Libm` value that every model receives as a parameter. What is known about
 * their signs is in the field types; the identities some lemmas need are
 * collected in `Sound`.
 */
module Special {

  type Pos = r: real | r > 0.0 witness 1.0

  datatype Libm = Libm(
    pi: Pos,                     // np.pi
    exp: real -> Pos,            // np.exp
    log: Pos -> real,            // np.log
    sqrt: Pos -> Pos,            // np.sqrt
    sin: real -> real,           // np.sin
    cos: real -> real,           // np.cos
    sinc: real -> real,          // np.sinc, sin(pi x)/(pi x)
    sphJn: (nat, real) -> real,  // scipy.special.spherical_jn
    divZero: real -> real)       // s / 0.0 in IEEE arithmetic: inf or nan, not a real; nothing is assumed

  /** The argument 2·i·j·π/n of the cosine in the equivalent-sites sum. */
  function CosArg(m: Libm, i: nat, j: nat, n: nat): real
    requires n > 0
  {
    2.0 * (i as real) * (j as real) * m.pi / (n as real)
  }

  /** Σ_{i < k} cos(2·i·j·π/n). */
  function CosSum(m: Libm, n: nat, j: nat, k: nat): real
    requires n > 0
  {
    if k == 0 then 0.0 else CosSum(m, n, j, k - 1) + m.cos(CosArg(m, k - 1, j, n))
  }

  /** The identities of the real functions that the lemmas rely on. */
  ghost predicate Sound(m: Libm) {
    && m.exp(0.0) == 1.0
    && m.sin(0.0) == 0.0
    && m.cos(0.0) == 1.0
    && m.sinc(0.0) == 1.0
    && m.log(0.1) < 0.0
    && (forall x :: m.log(m.exp(x)) == x)
    && (forall x, y :: x + y == m.pi ==> m.sin(x) == m.sin(y))
    // Σ_{i<n} cos(2πij/n) vanishes unless n divides j
    && (forall n: nat, j: nat :: 0 < j < n ==> CosSum(m, n, j, n) == 0.0)
  }

  function Pow(x: real, n: nat): real {
    if n == 0 then 1.0 else Pow(x, n - 1) * x
  }

  function Factorial(n: nat): (r: nat)
    ensures r >= 1
  {
    if n == 0 then 1 else n * Factorial(n - 1)
  }

  /** x², kept behind a function so that facts about it reach every use by congruence. */
  function Sq(x: real): real {
    x * x
  }

  lemma SqNonNegative(x: real)
    ensures Sq(x) >= 0.0
  {
    if x < 0.0 {
      calc { Sq(x); == (-x) * (-x); > 0.0; }
    } else {
      calc { Sq(x); == x * x; >= 0.0; }
    }
  }

  lemma SqPositive(x: real)
    requires x != 0.0
    ensures Sq(x) > 0.0
  {
    if x < 0.0 {
      calc { Sq(x); == (-x) * (-x); > 0.0; }
    } else {
      calc { Sq(x); == x * x; > 0.0; }
    }
  }

  lemma QuotientSign(d: real, n: real)
    requires d >= 0.0 && n > 0.0
    ensures d / n >= 0.0
    ensures d / n == 0.0 <==> d == 0.0
  {
    var t := d / n;
    assert t * n == d;
  }

  lemma ScaleQuotient(k: real, s: real, d: real)
    requires d != 0.0
    ensures (k * s) / d == k * (s / d)
  {
  }
}
