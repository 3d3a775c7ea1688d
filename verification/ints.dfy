/** Fixed-width integer arithmetic of the source, written out explicitly:
    Dafny integers are unbounded, the C++ ones wrap. */
module Ints {

  const TWO_31: int := 0x8000_0000
  const TWO_32: int := 0x1_0000_0000

  predicate IsU32(x: int) {
    0 <= x < TWO_32
  }

  predicate IsI32(x: int) {
    -TWO_31 <= x < TWO_31
  }

  /** The value of `x` truncated to an unsigned 32-bit integer (uint32_t arithmetic). */
  function U32(x: int): (r: int)
    ensures IsU32(r)
    ensures IsU32(x) ==> r == x
    ensures (x - r) % TWO_32 == 0
  {
    x % TWO_32
  }

  /** uint32_t multiplication: the mathematical product, reduced modulo 2^32. */
  function MulU32(a: int, b: int): (r: int)
    ensures IsU32(r)
    ensures IsU32(a * b) ==> r == a * b
  {
    U32(a * b)
  }

  /** static_cast<int32_t>: the low 32 bits read as a two's-complement value. */
  function ToInt32(x: int): (r: int)
    ensures IsI32(r)
    ensures IsI32(x) ==> r == x
    ensures (x - r) % TWO_32 == 0
  {
    var u := U32(x);
    if u >= TWO_31 then u - TWO_32 else u
  }

  /** static_cast<int32_t> of a floating value: truncation toward zero. */
  function TruncToInt(x: real): (r: int)
    ensures x >= 0.0 ==> r as real <= x < r as real + 1.0
    ensures x < 0.0 ==> r as real - 1.0 < x <= r as real
  {
    if x >= 0.0 then x.Floor else -((-x).Floor)
  }

  function Min(a: int, b: int): (r: int)
    ensures r <= a && r <= b
    ensures r == a || r == b
  {
    if a < b then a else b
  }

  function Max(a: int, b: int): (r: int)
    ensures r >= a && r >= b
    ensures r == a || r == b
  {
    if a < b then b else a
  }
}
