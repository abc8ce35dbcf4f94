/**
  * The parts of Java's semantics that the engine relies on: the exceptions it
  * raises, modelled as a result type, and the truncating integer `/` and `%`.
  */
module JavaBase {

  /** The exceptions the engine can raise. */
  datatype Error =
    | IllegalArgument      // java.lang.IllegalArgumentException
    | DivisionByZero       // java.lang.ArithmeticException ("/ by zero")

  /** A value, or the exception that was thrown instead of returning it. */
  datatype Result<T> = Success(value: T) | Failure(error: Error)

  /** Completion of a `void` Java method: normal return, or an exception. */
  datatype Outcome = Pass | Fail(error: Error)

  /** The range of Java's 32-bit `int`. */
  const INT_MIN: int := -0x8000_0000
  const INT_MAX: int := 0x7fff_ffff

  predicate IsInt(a: int) {
    INT_MIN <= a <= INT_MAX
  }

  /**
    * Java's `a + b` on int: the exact sum brought back into the int range,
    * i.e. the one int congruent to it modulo 2^32 (two's-complement wrap).
    */
  function AddInt(a: int, b: int): (r: int)
    requires IsInt(a) && IsInt(b)
    ensures IsInt(r)
    ensures (a + b - r) % 0x1_0000_0000 == 0
  {
    var s := a + b;
    if s > INT_MAX then s - 0x1_0000_0000
    else if s < INT_MIN then s + 0x1_0000_0000
    else s
  }

  function Abs(a: int): nat {
    if a < 0 then -a else a
  }

  /** Java's `a / b` on int: the quotient is truncated toward zero. */
  function JavaDiv(a: int, b: int): (q: int)
    requires b != 0
    ensures a >= 0 && b > 0 ==> q == a / b
  {
    var m := Abs(a) / Abs(b);
    if (a >= 0) == (b > 0) then m else -m
  }

  /**
    * Java's `a % b` on int: the remainder of the truncating division, so it
    * carries the sign of the dividend (Dafny's own `%` is Euclidean).
    */
  function JavaRem(a: int, b: int): (r: int)
    requires b != 0
    ensures a == JavaDiv(a, b) * b + r
    ensures Abs(r) < Abs(b)
    ensures a >= 0 ==> 0 <= r
    ensures a <= 0 ==> r <= 0
    ensures a >= 0 && b > 0 ==> r == a % b
  {
    var m := Abs(a) % Abs(b);
    var r := if a >= 0 then m else -m;
    DivModOfAbs(a, b);
    r
  }

  /** The truncating quotient and remainder recombine to the dividend. */
  lemma DivModOfAbs(a: int, b: int)
    requires b != 0
    ensures a == JavaDiv(a, b) * b + (if a >= 0 then Abs(a) % Abs(b) else -(Abs(a) % Abs(b)))
  {
    var q, m := Abs(a) / Abs(b), Abs(a) % Abs(b);
    assert Abs(a) == q * Abs(b) + m;
    if a >= 0 && b > 0 {
    } else if a >= 0 {
      assert Abs(b) == -b;
      assert a == (-q) * b + m;
    } else if b > 0 {
      assert a == (-q) * b - m;
    } else {
      assert Abs(b) == -b;
      assert a == q * b - m;
    }
  }

  /**
    * The sign-corrected remainder used for wraparound: a negative Java
    * remainder is pulled back into range by adding the modulus. It is the
    * Euclidean remainder.
    */
  function Wrap(a: int, m: int): (r: int)
    requires m > 0
    ensures 0 <= r < m
    ensures r == a % m
  {
    var rem := JavaRem(a, m);
    var r := if rem < 0 then m + rem else rem;
    WrapIsEuclidean(a, m, JavaDiv(a, m), rem);
    r
  }

  lemma WrapIsEuclidean(a: int, m: int, q: int, rem: int)
    requires m > 0 && a == q * m + rem && -m < rem < m
    requires a >= 0 ==> rem >= 0
    ensures (if rem < 0 then m + rem else rem) == a % m
  {
    if rem < 0 {
      assert a == (q - 1) * m + (m + rem);
      EuclideanUnique(a, m, q - 1, m + rem);
    } else {
      EuclideanUnique(a, m, q, rem);
    }
  }

  lemma EuclideanUnique(a: int, m: int, q: int, r: int)
    requires m > 0 && a == q * m + r && 0 <= r < m
    ensures a % m == r && a / m == q
  {
    var q', r' := a / m, a % m;
    assert a == q' * m + r';
    MulDistance(q, q', m);
    assert (q - q') * m == r' - r;
    if q > q' {
      MulAtLeast(q - q', m);
    } else if q < q' {
      MulAtLeast(q' - q, m);
    }
  }

  lemma MulDistance(q: int, q': int, m: int)
    ensures q * m - q' * m == (q - q') * m
  {}

  lemma MulAtLeast(k: int, m: int)
    requires k >= 1 && m > 0
    ensures k * m >= m
  {}
}
