/** C#'s `int`: a 32-bit two's-complement integer whose `+` and `-` wrap around
    (Unity compiles scripts without overflow checking). */
module Int32 {

  const MIN: int := -0x8000_0000
  const MAX: int := 0x7fff_ffff
  const MODULUS: int := 0x1_0000_0000

  /** The values a C# `int` can hold. */
  predicate InRange(x: int) {
    MIN <= x <= MAX
  }

  /** The value an unchecked C# `int` operation yields when its exact result is `x`. */
  function Wrap(x: int): (r: int)
    ensures InRange(r)
    ensures InRange(x) ==> r == x
    ensures (x - r) % MODULUS == 0
    ensures x > MAX && x - MODULUS <= MAX ==> r == x - MODULUS
  {
    (x - MIN) % MODULUS + MIN
  }

  function Max(a: int, b: int): (r: int)
    ensures r >= a && r >= b
    ensures r == a || r == b
  {
    if a >= b then a else b
  }

  function Min(a: int, b: int): (r: int)
    ensures r <= a && r <= b
    ensures r == a || r == b
  {
    if a <= b then a else b
  }
}
