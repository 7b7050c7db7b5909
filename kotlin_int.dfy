/**
  Kotlin's 32-bit `Int` arithmetic, written out over Dafny's unbounded integers:
  `+`, `-`, `*` and unary `-` wrap modulo 2^32, `/` truncates toward zero and
  `%` takes the sign of the dividend.
 */
module KotlinInt {

  const MinInt: int := -0x8000_0000
  const MaxInt: int := 0x7FFF_FFFF
  const Modulus: int := 0x1_0000_0000

  /** The values of Kotlin's `Int`. */
  type Int32 = x: int | MinInt <= x <= MaxInt

  function Abs(x: int): nat
  {
    if x < 0 then -x else x
  }

  /** Two's-complement wrap-around: the one `Int` congruent to `x` modulo 2^32. */
  function Wrap(x: int): (r: Int32)
    ensures (r - x) % Modulus == 0
    ensures MinInt <= x <= MaxInt ==> r == x
  {
    var m := (x - MinInt) % Modulus;
    assert x - MinInt == Modulus * ((x - MinInt) / Modulus) + m;
    m + MinInt
  }

  function Add(a: Int32, b: Int32): Int32 { Wrap(a + b) }

  function Subtract(a: Int32, b: Int32): Int32 { Wrap(a - b) }

  function Multiply(a: Int32, b: Int32): Int32 { Wrap(a * b) }

  function Negate(a: Int32): Int32 { Wrap(-(a as int)) }

  lemma NatDivision(x: nat, y: nat)
    requires y > 0
    ensures x / y >= 0 && 0 <= x % y < y && x == (x / y) * y + x % y
  {}

  /** The quotient of Kotlin's `/` before wrapping: rounded toward zero. */
  function TruncDiv(a: int, b: int): (q: int)
    requires b != 0
    ensures Abs(q) == Abs(a) / Abs(b)
    ensures q != 0 ==> (q < 0 <==> ((a < 0) != (b < 0)))
  {
    NatDivision(Abs(a), Abs(b));
    var m := Abs(a) / Abs(b);
    if (a < 0) == (b < 0) then m else -m
  }

  /** Kotlin's `%`: the remainder left by `TruncDiv`, carrying the dividend's sign. */
  function TruncRem(a: int, b: int): (r: int)
    requires b != 0
    ensures a == TruncDiv(a, b) * b + r
    ensures Abs(r) < Abs(b)
    ensures r != 0 ==> (r < 0 <==> a < 0)
  {
    NatDivision(Abs(a), Abs(b));
    var s := Abs(a) % Abs(b);
    SignedProduct(a, b, Abs(a) / Abs(b));
    if a < 0 then -s else s
  }

  lemma SignedProduct(a: int, b: int, m: int)
    requires b != 0 && m == Abs(a) / Abs(b)
    ensures TruncDiv(a, b) * b == (if a < 0 then -(m * Abs(b)) else m * Abs(b))
  {
    if (a < 0) == (b < 0) {
      assert TruncDiv(a, b) == m;
    } else {
      assert TruncDiv(a, b) == -m;
    }
  }

  /** `x` and `y` leave the same remainder modulo 2^32. */
  predicate Congruent(x: int, y: int)
  {
    (x - y) % Modulus == 0
  }

  lemma MultipleOfModulus(u: int)
    requires u % Modulus == 0
    ensures u == Modulus * (u / Modulus)
  {
  }

  /** Congruent integers wrap to the same `Int`. */
  lemma WrapCongruent(x: int, y: int)
    requires Congruent(x, y)
    ensures Wrap(x) == Wrap(y)
  {
    var a, b := Wrap(x), Wrap(y);
    MultipleOfModulus(a - x);
    MultipleOfModulus(b - y);
    MultipleOfModulus(x - y);
    var k := (a - x) / Modulus - (b - y) / Modulus + (x - y) / Modulus;
    assert a - b == Modulus * k;
  }

  /** Wrapping the operands first does not change a wrapped sum, difference or product. */
  lemma WrapAdd(x: int, y: int)
    ensures Add(Wrap(x), Wrap(y)) == Wrap(x + y)
  {
    var a, b := Wrap(x) as int, Wrap(y) as int;
    MultipleOfModulus(a - x);
    MultipleOfModulus(b - y);
    var i, j := (a - x) / Modulus, (b - y) / Modulus;
    assert (a + b) - (x + y) == Modulus * (i + j);
    ModulusMultiple(i + j);
    WrapCongruent(a + b, x + y);
  }

  lemma WrapSubtract(x: int, y: int)
    ensures Subtract(Wrap(x), Wrap(y)) == Wrap(x - y)
  {
    var a, b := Wrap(x) as int, Wrap(y) as int;
    MultipleOfModulus(a - x);
    MultipleOfModulus(b - y);
    var i, j := (a - x) / Modulus, (b - y) / Modulus;
    assert (a - b) - (x - y) == Modulus * (i - j);
    ModulusMultiple(i - j);
    WrapCongruent(a - b, x - y);
  }

  lemma WrapNegate(x: int)
    ensures Negate(Wrap(x)) == Wrap(-x)
  {
    var a := Wrap(x) as int;
    MultipleOfModulus(a - x);
    var i := (a - x) / Modulus;
    assert -a - -x == Modulus * -i;
    ModulusMultiple(-i);
    WrapCongruent(-a, -x);
  }

  lemma WrapMultiply(x: int, y: int)
    ensures Multiply(Wrap(x), Wrap(y)) == Wrap(x * y)
  {
    var a, b := Wrap(x) as int, Wrap(y) as int;
    MultipleOfModulus(a - x);
    MultipleOfModulus(b - y);
    var i, j := (a - x) / Modulus, (b - y) / Modulus;
    ShiftedProduct(x, y, i, j);
    var k := i * y + x * j + Modulus * i * j;
    assert a * b - x * y == Modulus * k;
    ModulusMultiple(k);
    WrapCongruent(a * b, x * y);
  }

  /** Shifting both factors by multiples of 2^32 shifts the product by a multiple of 2^32. */
  lemma ShiftedProduct(x: int, y: int, i: int, j: int)
    ensures (x + Modulus * i) * (y + Modulus * j) - x * y == Modulus * (i * y + x * j + Modulus * i * j)
  {
    calc {
      (x + Modulus * i) * (y + Modulus * j) - x * y;
      x * y + x * (Modulus * j) + (Modulus * i) * y + (Modulus * i) * (Modulus * j) - x * y;
      Modulus * (i * y + x * j + Modulus * i * j);
    }
  }

  lemma ModulusMultiple(k: int)
    ensures (Modulus * k) % Modulus == 0
  {
  }

  /** Kotlin's `Int / Int` for a nonzero divisor (only MIN_VALUE / -1 wraps). */
  function Divide(a: Int32, b: Int32): Int32
    requires b != 0
  {
    Wrap(TruncDiv(a, b))
  }

  /** Kotlin's `Int % Int` for a nonzero divisor; the remainder always fits. */
  function Remainder(a: Int32, b: Int32): Int32
    requires b != 0
  {
    TruncRem(a, b)
  }
}
