/**
 * The few JavaScript built-ins the engine leans on: optional values and
 * truthiness, `Math.round`, `Math.PI`, and the non-algebraic functions
 * `Math.pow`, `Math.sqrt` and `Math.log2`.
 *
 * The non-algebraic functions are not given a definition: the model takes
 * them as a record `MathLib` of functions, and `Lawful` lists the only facts
 * about them that the proofs use (all of which the real functions satisfy).
 */
module JsBuiltins {

  /** An optional property of a record (`undefined` when absent). */
  datatype Option<+T> = None | Some(value: T)

  /** JavaScript truthiness of an optional number: `undefined` and `0` are falsy. */
  predicate Truthy(x: Option<real>) {
    x.Some? && x.value != 0.0
  }

  /** `Math.round`: the nearest integer, halves rounded towards +infinity. */
  function Round(x: real): (n: int)
    ensures x - 0.5 < n as real <= x + 0.5
  {
    (x + 0.5).Floor
  }

  lemma RoundMonotone(x: real, y: real)
    requires x <= y
    ensures Round(x) <= Round(y)
  {
    assert (x + 0.5).Floor as real <= y + 0.5;
  }

  lemma RoundOfInt(n: int)
    ensures Round(n as real) == n
  {
  }

  lemma RoundNonNegative(x: real)
    requires x >= 0.0
    ensures Round(x) >= 0
  {
  }

  /** The `%` operator on integers: the remainder takes the sign of the dividend. */
  function JsRemainder(a: int, b: int): (r: int)
    requires b > 0
    ensures a >= 0 ==> r == a % b && 0 <= r < b
    ensures a < 0 ==> -b < r <= 0
    ensures (a - r) % b == 0
  {
    if a >= 0 then
      assert a - a % b == (a / b) * b;
      MultipleRemainder(a / b, b);
      a % b
    else
      var q := (-a) / b;
      assert a + (-a) % b == (-q) * b;
      MultipleRemainder(-q, b);
      -((-a) % b)
  }

  /** A multiple of `b` leaves no remainder. */
  lemma MultipleRemainder(k: int, b: int)
    requires b > 0
    ensures (k * b) % b == 0
  {
    var x := k * b;
    var d := k - x / b;
    assert x % b == d * b;
    NonZeroMultiple(d, b);
  }

  /** A non-zero multiple of a positive `b` is at least `b` away from zero. */
  lemma NonZeroMultiple(d: int, b: int)
    requires b > 0
    ensures d >= 1 ==> d * b >= b
    ensures d <= -1 ==> d * b <= -b
  {
    assert d * b - b == (d - 1) * b;
    assert d * b + b == (d + 1) * b;
  }

  /** `Math.PI`, written out as the decimal that the double denotes to 16 digits. */
  const PI: real := 3.141592653589793

  function Square(x: real): real {
    x * x
  }

  lemma SquarePositive(x: real)
    requires x != 0.0
    ensures Square(x) > 0.0
  {
    if x > 0.0 {
      calc {
        Square(x);
        x * x;
      > { assert x * x > 0.0; }
        0.0;
      }
    } else {
      var y := -x;
      calc {
        Square(x);
        x * x;
        y * y;
      > { assert y * y > 0.0; }
        0.0;
      }
    }
  }

  /** `Math.pow`, `Math.sqrt` and `Math.log2`. */
  datatype MathLib = MathLib(pow: (real, real) -> real, sqrt: real -> real, log2: real -> real)

  /** The laws of the real functions that the model relies on. */
  ghost predicate Lawful(m: MathLib) {
    && (forall p :: m.pow(1.0, p) == 1.0)
    && (forall x :: m.pow(x, 1.0) == x)
    && (forall x :: m.pow(x, 2.0) == x * x)
    && (forall x :: x >= 0.0 ==> m.pow(Square(x), 0.5) == x)
    && (forall x, p :: x > 0.0 ==> m.pow(x, p) > 0.0)
    && (forall x, y, p :: 0.0 < x <= y && p > 0.0 ==> m.pow(x, p) <= m.pow(y, p))
    && (forall x :: x >= 0.0 ==> m.sqrt(x) == m.pow(x, 0.5))
    && (forall x :: x > 1.0 ==> m.log2(x) > 0.0)
  }
}
