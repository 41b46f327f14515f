/** Small shared vocabulary: optional values and Go's fixed-width integers. */
module Prelude {

  datatype Option<+T> = None | Some(value: T)

  const TWO_63: int := 0x8000_0000_0000_0000

  /** The range of Go's int, int64 and time.Duration on a 64-bit platform. */
  predicate FitsInt64(x: int) {
    -TWO_63 <= x < TWO_63
  }

  /** The value an int64 holds after an operation whose exact result is x. */
  function Wrap64(x: int): (r: int)
    ensures FitsInt64(r)
    ensures FitsInt64(x) ==> r == x
    ensures exists k: int :: r == x + k * (2 * TWO_63)
  {
    var r := (x + TWO_63) % (2 * TWO_63) - TWO_63;
    assert r == x + (-((x + TWO_63) / (2 * TWO_63))) * (2 * TWO_63);
    r
  }

  function Min(a: int, b: int): int {
    if a <= b then a else b
  }

  function Max(a: int, b: int): int {
    if a >= b then a else b
  }

  function Pow2(n: nat): (p: int)
    ensures p >= 1
  {
    if n == 0 then 1 else 2 * Pow2(n - 1)
  }
}
