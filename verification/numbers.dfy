/**
 * The `f64` carried by `Value::Number`.
 *
 * A number is a finite real or one of the IEEE 754 special values. Arithmetic on
 * finite operands is exact (the model does not round, does not overflow to an
 * infinity and has no signed zero); the infinities and NaN follow the IEEE 754
 * rules that Rust's `f64` operators follow, and comparisons follow Rust's
 * `PartialEq`/`PartialOrd` for `f64`: NaN is unequal and unordered to everything,
 * itself included.
 */
module Numbers {

  datatype F64 = Finite(r: real) | PosInf | NegInf | NaN

  /** `n as f64` for an integer `n`. */
  function FromInt(n: int): F64 {
    Finite(n as real)
  }

  function Neg(x: F64): F64 {
    match x
    case Finite(a) => Finite(-a)
    case PosInf => NegInf
    case NegInf => PosInf
    case NaN => NaN
  }

  function Add(x: F64, y: F64): F64 {
    match (x, y)
    case (NaN, _) => NaN
    case (_, NaN) => NaN
    case (PosInf, NegInf) => NaN
    case (NegInf, PosInf) => NaN
    case (PosInf, _) => PosInf
    case (NegInf, _) => NegInf
    case (_, PosInf) => PosInf
    case (_, NegInf) => NegInf
    case (Finite(a), Finite(b)) => Finite(a + b)
  }

  function Sub(x: F64, y: F64): F64 {
    Add(x, Neg(y))
  }

  /** -1, 0 or 1: the sign of a number that is not NaN (zero counts as positive for infinities). */
  function Sign(x: F64): int
    requires !x.NaN?
  {
    match x
    case PosInf => 1
    case NegInf => -1
    case Finite(a) => if a < 0.0 then -1 else if a == 0.0 then 0 else 1
  }

  /** The infinity whose sign is the product of two signs, a zero sign counting as positive. */
  function SignedInf(s: int, t: int): F64 {
    if (s < 0) != (t < 0) then NegInf else PosInf
  }

  function Mul(x: F64, y: F64): F64 {
    match (x, y)
    case (NaN, _) => NaN
    case (_, NaN) => NaN
    case (Finite(a), Finite(b)) => Finite(a * b)
    case _ => if Sign(x) == 0 || Sign(y) == 0 then NaN else SignedInf(Sign(x), Sign(y))
  }

  function Div(x: F64, y: F64): F64 {
    match (x, y)
    case (NaN, _) => NaN
    case (_, NaN) => NaN
    case (Finite(a), Finite(b)) =>
      if b != 0.0 then Finite(a / b)
      else if a == 0.0 then NaN
      else SignedInf(Sign(x), 1)
    case (Finite(_), _) => Finite(0.0)
    case (_, Finite(_)) => SignedInf(Sign(x), Sign(y))
    case _ => NaN
  }

  /** The integer part of a real, rounding toward zero. */
  function Trunc(q: real): int {
    if q >= 0.0 then q.Floor else -((-q).Floor)
  }

  /** Rust's `%` on `f64`: the remainder of the division truncated toward zero (C's `fmod`). */
  function Rem(x: F64, y: F64): F64 {
    match (x, y)
    case (Finite(a), Finite(b)) =>
      if b == 0.0 then NaN else Finite(a - (Trunc(a / b) as real) * b)
    case (Finite(_), PosInf) => x
    case (Finite(_), NegInf) => x
    case _ => NaN
  }

  /** `==` on `f64`. */
  predicate Eq(x: F64, y: F64) {
    !x.NaN? && !y.NaN? && x == y
  }

  /** `<` on `f64`. */
  predicate Lt(x: F64, y: F64) {
    match (x, y)
    case (NaN, _) => false
    case (_, NaN) => false
    case (Finite(a), Finite(b)) => a < b
    case (NegInf, _) => !y.NegInf?
    case (_, PosInf) => !x.PosInf?
    case _ => false
  }

  predicate Le(x: F64, y: F64) {
    Lt(x, y) || Eq(x, y)
  }

  predicate Gt(x: F64, y: F64) {
    Lt(y, x)
  }

  predicate Ge(x: F64, y: F64) {
    Le(y, x)
  }

  /** Without NaN the comparisons form a strict total order: exactly one of `<`, `==`, `>` holds. */
  lemma Trichotomy(x: F64, y: F64)
    requires !x.NaN? && !y.NaN?
    ensures Lt(x, y) || Eq(x, y) || Gt(x, y)
    ensures !(Lt(x, y) && Eq(x, y)) && !(Lt(x, y) && Gt(x, y)) && !(Eq(x, y) && Gt(x, y))
  {
  }

  /** NaN is unequal and unordered to every number. */
  lemma NaNUnordered(x: F64)
    ensures !Eq(NaN, x) && !Eq(x, NaN)
    ensures !Lt(NaN, x) && !Lt(x, NaN) && !Le(NaN, x) && !Le(x, NaN)
  {
  }

  lemma LtTransitive(x: F64, y: F64, z: F64)
    requires Lt(x, y) && Lt(y, z)
    ensures Lt(x, z)
  {
  }

  /** Integer conversion is an order embedding: integers compare exactly as their conversions do. */
  lemma FromIntMonotone(m: int, n: int)
    ensures Eq(FromInt(m), FromInt(n)) <==> m == n
    ensures Lt(FromInt(m), FromInt(n)) <==> m < n
  {
  }

  /** Truncation rounds toward zero: it never moves away from zero and stays within one. */
  lemma TruncBounds(q: real)
    ensures q >= 0.0 ==> 0.0 <= Trunc(q) as real <= q < Trunc(q) as real + 1.0
    ensures q < 0.0 ==> Trunc(q) as real - 1.0 < q <= Trunc(q) as real <= 0.0
  {
  }

  /** A product of two positive reals is positive. */
  lemma PositiveProduct(x: real, y: real)
    requires x > 0.0 && y > 0.0
    ensures x * y > 0.0
  {
  }

  /** A product of two non-negative reals is non-negative. */
  lemma NonNegativeProduct(x: real, y: real)
    requires x >= 0.0 && y >= 0.0
    ensures x * y >= 0.0
  {
  }

  /** The sign of a quotient is the product of the signs of its operands. */
  lemma QuotientSign(a: real, b: real)
    requires b != 0.0
    ensures a == (a / b) * b
    ensures a == 0.0 <==> a / b == 0.0
    ensures a / b > 0.0 <==> (a > 0.0 && b > 0.0) || (a < 0.0 && b < 0.0)
  {
  }

  /**
   * The remainder of finite operands with a nonzero divisor differs from the dividend by a
   * whole multiple of the divisor, is smaller than the divisor in magnitude, and is zero or
   * has the sign of the dividend.
   */
  lemma RemFinite(a: real, b: real)
    requires b != 0.0
    ensures Rem(Finite(a), Finite(b)).Finite?
    ensures var m := Rem(Finite(a), Finite(b)).r;
      && (a - m) / b == ((a - m) / b).Floor as real
      && (if b > 0.0 then -b < m < b else b < m < -b)
      && (a >= 0.0 ==> m >= 0.0) && (a <= 0.0 ==> m <= 0.0)
  {
    var k := Trunc(a / b);
    var m := a - (k as real) * b;
    assert Rem(Finite(a), Finite(b)) == Finite(m);
    assert (a - m) / b == ((a - m) / b).Floor as real by {
      WholeQuotient(a, b, k, m);
    }
    RemSignAndBound(a, b, k, m);
  }

  lemma RemSignAndBound(a: real, b: real, k: int, m: real)
    requires b != 0.0 && k == Trunc(a / b) && m == a - (k as real) * b
    ensures b > 0.0 ==> -b < m && m < b
    ensures b < 0.0 ==> b < m && m < -b
    ensures (a >= 0.0 ==> m >= 0.0) && (a <= 0.0 ==> m <= 0.0)
  {
    var q := a / b;
    var f := q - k as real;
    TruncFraction(q, k);
    RemIsFractionTimes(a, b, k, m);
    assert (a >= 0.0 ==> (b > 0.0 ==> q >= 0.0) && (b < 0.0 ==> q <= 0.0))
      && (a <= 0.0 ==> (b > 0.0 ==> q <= 0.0) && (b < 0.0 ==> q >= 0.0)) by {
      QuotientSign(a, b);
    }
    FractionBounds(f, b, m);
  }

  /**
   * The bounds and sign of `m = f * b` for a proper fraction `f`: the distance from `m` to
   * either end of the interval between `-|b|` and `|b|` is a positive multiple of `|b|`.
   */
  lemma FractionBounds(f: real, b: real, m: real)
    requires -1.0 < f < 1.0 && b != 0.0 && m == f * b
    ensures b > 0.0 ==> -b < m && m < b
    ensures b < 0.0 ==> b < m && m < -b
    ensures f >= 0.0 ==> (b > 0.0 ==> m >= 0.0) && (b < 0.0 ==> m <= 0.0)
    ensures f <= 0.0 ==> (b > 0.0 ==> m <= 0.0) && (b < 0.0 ==> m >= 0.0)
  {
    if b > 0.0 {
      PositiveFraction(f, b, m);
    } else {
      assert m == (-f) * (-b);
      PositiveFraction(-f, -b, m);
    }
  }

  /** `FractionBounds` for a positive `c`: the distance from `m` to `-c` and to `c` is a positive multiple of `c`. */
  lemma PositiveFraction(g: real, c: real, m: real)
    requires -1.0 < g < 1.0 && c > 0.0 && m == g * c
    ensures -c < m < c
    ensures g >= 0.0 ==> m >= 0.0
    ensures g <= 0.0 ==> m <= 0.0
  {
    BelowMultiple(g, c, m);
    BelowMultiple(-g, c, -m);
    if g >= 0.0 {
      NonNegativeProduct(g, c);
    } else {
      NonNegativeProduct(-g, c);
    }
  }

  /** `c - g * c` is `(1 - g) * c`, positive when `g < 1` and `c > 0`. */
  lemma BelowMultiple(g: real, c: real, m: real)
    requires g < 1.0 && c > 0.0 && m == g * c
    ensures m < c
  {
    PositiveProduct(1.0 - g, c);
    assert c - m == (1.0 - g) * c;
  }

  /** What truncation drops is a fraction of magnitude below one with the sign of the quotient. */
  lemma TruncFraction(q: real, k: int)
    requires k == Trunc(q)
    ensures -1.0 < q - k as real < 1.0
    ensures q >= 0.0 ==> q - k as real >= 0.0
    ensures q <= 0.0 ==> q - k as real <= 0.0
  {
    TruncBounds(q);
  }

  lemma RemIsFractionTimes(a: real, b: real, k: int, m: real)
    requires b != 0.0 && m == a - (k as real) * b
    ensures m == (a / b - k as real) * b
  {
    QuotientSign(a, b);
    FractionTimes(a, b, a / b, k as real, m);
  }

  lemma WholeQuotient(a: real, b: real, k: int, m: real)
    requires b != 0.0 && m == a - (k as real) * b
    ensures (a - m) / b == ((a - m) / b).Floor as real
  {
    assert (a - m) / b == k as real;
  }

  lemma FractionTimes(a: real, b: real, q: real, k: real, m: real)
    requires a == q * b && m == a - k * b
    ensures m == (q - k) * b
  {
  }

  /** Any arithmetic result with a NaN operand is NaN. */
  lemma NaNPropagates(x: F64)
    ensures Add(NaN, x).NaN? && Add(x, NaN).NaN? && Sub(NaN, x).NaN? && Sub(x, NaN).NaN?
    ensures Mul(NaN, x).NaN? && Mul(x, NaN).NaN? && Div(NaN, x).NaN? && Div(x, NaN).NaN?
    ensures Rem(NaN, x).NaN? && Rem(x, NaN).NaN?
  {
  }
}
