/** The two pieces of C++ integer arithmetic the model depends on:
    division that truncates toward zero, and 32-bit unsigned wrap-around. */
module CppInts {

  const TwoTo32: int := 0x1_0000_0000

  /** The values of SDL's `Uint32`. */
  type Uint32 = x: int | 0 <= x < TwoTo32

  /** C++ `a / b` on `int` for a positive divisor: the quotient is rounded
      toward zero, so `q * b` lies between 0 and `a` and is less than `b` away from `a`. */
  function TruncDiv(a: int, b: int): (q: int)
    requires b > 0
    ensures 0 <= a ==> 0 <= q && a - b < q * b <= a
    ensures a < 0 ==> q <= 0 && a <= q * b < a + b
  {
    if a >= 0 then a / b else -((-a) / b)
  }

  /** `static_cast<Uint32>(x)`: reduction modulo 2^32. */
  function ToUint32(x: int): (u: Uint32)
    ensures 0 <= x < TwoTo32 ==> u == x
    ensures (u - x) % TwoTo32 == 0
  {
    x % TwoTo32
  }

  /** `now - last` computed in `Uint32`: the number of ticks from `last` forward to `now`,
      counting across a wrap of the tick counter. */
  function ElapsedTicks(now: Uint32, last: Uint32): (d: Uint32)
    ensures last <= now ==> d == now - last
    ensures now < last ==> d == now - last + TwoTo32
  {
    (now - last) % TwoTo32
  }
}
