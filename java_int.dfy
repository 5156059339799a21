/** Java's 32-bit two's-complement `int`, as far as the pretty printer's
    depth counter needs it: the range of values and the wrap-around of
    `++` and `--`. */
module JavaInt {

  const MIN: int := -0x8000_0000
  const MAX: int := 0x7fff_ffff
  const MODULUS: int := 0x1_0000_0000

  newtype int32 = x: int | -0x8000_0000 <= x < 0x8000_0000

  /** The `int` that a Java expression of mathematical value `x` evaluates
      to: the one value of the 32-bit range congruent to `x` modulo 2^32. */
  function Wrap(x: int): (r: int32)
    ensures (x - r as int) % MODULUS == 0
    ensures MIN <= x <= MAX ==> r as int == x
  {
    ((x - MIN) % MODULUS + MIN) as int32
  }

  /** No two values of the 32-bit range are congruent modulo 2^32, so the
      congruence of `Wrap` pins its result down. */
  lemma WrapUnique(x: int, y: int32)
    requires (x - y as int) % MODULUS == 0
    ensures Wrap(x) == y
  {
    var r := Wrap(x);
    var p, q := x - r as int, x - y as int;
    assert p == MODULUS * (p / MODULUS);
    assert q == MODULUS * (q / MODULUS);
    var d := p / MODULUS - q / MODULUS;
    assert y as int - r as int == MODULUS * d;
    assert -MODULUS < MODULUS * d < MODULUS;
    assert d == 0;
  }

  /** Wrapping an intermediate result changes nothing: a chain of `int`
      operations computes the mathematical value, wrapped once at the end. */
  lemma WrapAdd(a: int, b: int)
    ensures Wrap(Wrap(a) as int + b) == Wrap(a + b)
  {
    var w := Wrap(a);
    var v := Wrap(w as int + b);
    var p, q := a - w as int, w as int + b - v as int;
    assert p == MODULUS * (p / MODULUS);
    assert q == MODULUS * (q / MODULUS);
    var k := p / MODULUS + q / MODULUS;
    assert a + b - v as int == MODULUS * k;
    assert (MODULUS * k) % MODULUS == 0;
    WrapUnique(a + b, v);
  }

  /** Java's `x++` on an `int` field: one more, except that the largest
      value steps to the smallest. */
  function Increment(x: int32): (r: int32)
    ensures x as int < MAX ==> r as int == x as int + 1
    ensures x as int == MAX ==> r as int == MIN
  {
    if x as int == MAX then MIN as int32 else (x as int + 1) as int32
  }

  /** Java's `x--` on an `int` field: one less, except that the smallest
      value steps to the largest. */
  function Decrement(x: int32): (r: int32)
    ensures MIN < x as int ==> r as int == x as int - 1
    ensures x as int == MIN ==> r as int == MAX
  {
    if x as int == MIN then MAX as int32 else (x as int - 1) as int32
  }

  /** `x++` and `x--` compute the mathematical successor and predecessor,
      wrapped into the 32-bit range. */
  lemma StepsWrap(x: int32)
    ensures Increment(x) == Wrap(x as int + 1)
    ensures Decrement(x) == Wrap(x as int - 1)
  {
    WrapUnique(x as int + 1, Increment(x));
    WrapUnique(x as int - 1, Decrement(x));
  }

  /** `++` and `--` undo each other on every value, the extremes included. */
  lemma IncrementDecrementInverse(x: int32)
    ensures Decrement(Increment(x)) == x
    ensures Increment(Decrement(x)) == x
  {
  }
}
