/** Java's fixed-width integers and its truncating division, written out over
    Dafny's unbounded `int`. */
module JavaArith {

  const Two31: int := 0x8000_0000
  const Two32: int := 0x1_0000_0000
  const Two63: int := 0x8000_0000_0000_0000

  /** Values of a Java `int`. */
  type Int32 = x: int | -Two31 <= x < Two31

  /** Values of a Java `long`. */
  type Int64 = x: int | -Two63 <= x < Two63

  /** Java's `/` for a positive divisor: rounds toward zero, unlike Dafny's
      Euclidean `/`. */
  function Div(a: int, b: int): (q: int)
    requires b > 0
    ensures 0 <= a ==> 0 <= b * q <= a < b * q + b
    ensures a < 0 ==> b * q - b < a <= b * q <= 0
  {
    if a >= 0 then
      FloorBounds(a, b);
      a / b
    else
      FloorBounds(-a, b);
      var p := (-a) / b;
      NegMul(b, p);
      -p
  }

  /** Dafny's `/` on a non-negative dividend brackets it between two
      consecutive multiples of the divisor. */
  lemma FloorBounds(a: int, b: int)
    requires 0 <= a && b > 0
    ensures 0 <= b * (a / b) <= a < b * (a / b) + b
  {
    var q := a / b;
    assert a == q * b + a % b && 0 <= a % b < b && 0 <= q;
    MulNonneg(b, q);
  }

  lemma NegMul(x: int, y: int)
    ensures x * -y == -(x * y)
  {
  }

  lemma MulNonneg(x: int, y: int)
    requires 0 <= x && 0 <= y
    ensures 0 <= x * y
  {
  }

  /** Java's `%` for a positive divisor: the remainder takes the sign of the
      dividend, and `a == b * Div(a, b) + Rem(a, b)`. */
  function Rem(a: int, b: int): (r: int)
    requires b > 0
    ensures a == b * Div(a, b) + r
    ensures a >= 0 ==> 0 <= r < b
    ensures a < 0 ==> -b < r <= 0
  {
    a - b * Div(a, b)
  }

  /** The narrowing cast `(int) x` of a Java `long`: keeps the low 32 bits,
      read as two's complement. */
  function ToInt(x: int): (r: Int32)
    ensures -Two31 <= x < Two31 ==> r == x
    ensures (r - x) % Two32 == 0
  {
    (x + Two31) % Two32 - Two31
  }

  /** `x++` on a Java `int`: the largest value wraps to the smallest. */
  function Inc(x: Int32): (r: Int32)
    ensures x < Two31 - 1 ==> r == x + 1
    ensures x == Two31 - 1 ==> r == -Two31
  {
    if x == Two31 - 1 then -Two31 else x + 1
  }

  /** `x++` is the narrowing of the unbounded successor. */
  lemma IncIsNarrowedSuccessor(x: Int32)
    ensures Inc(x) == ToInt(x + 1)
  {
  }
}
