/** Fixed-width integers and the small types that every component shares. */
module Base {

  const TWO32: nat := 0x1_0000_0000
  const TWO64: nat := 0x1_0000_0000_0000_0000

  /** A `tuint32` whose arithmetic is proved never to leave its range. */
  type u32 = x: int | 0 <= x < 0x1_0000_0000

  /** An `unsigned char`. */
  type byte = x: int | 0 <= x < 256

  datatype Option<+T> = None | Some(value: T)

  /** `x++` on a `tuint32`. */
  function Inc32(x: nat): nat {
    if x + 1 < TWO32 then x + 1 else 0
  }

  /** `x--` on a `tuint32`: zero wraps to the largest value. */
  function Dec32(x: nat): nat {
    if x == 0 then TWO32 - 1 else x - 1
  }

  /** `a + b` on two `tuint32`. */
  function Add32(a: u32, b: u32): u32 {
    (a + b) % TWO32
  }

  function Pow2(k: nat): nat {
    if k == 0 then 1 else 2 * Pow2(k - 1)
  }

  function Reversed<T>(s: seq<T>): (r: seq<T>)
    ensures |r| == |s|
  {
    seq(|s|, i requires 0 <= i < |s| => s[|s| - 1 - i])
  }

  function Min(a: int, b: int): int {
    if a < b then a else b
  }

  /** A block of zero bytes. */
  function Zeros(n: nat): seq<byte> {
    seq(n, _ => 0)
  }
}
