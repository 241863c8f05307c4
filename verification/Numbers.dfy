/** The fixed-width integers of the driver. */
module Numbers {

  const TWO31 := 0x8000_0000
  const TWO63 := 0x8000_0000_0000_0000

  /** Conversion to int32. */
  function Int32(n: int): (r: int)
    ensures -TWO31 <= r < TWO31 && (r - n) % (2 * TWO31) == 0 && (-TWO31 <= n < TWO31 ==> r == n)
  {
    (n + 0x8000_0000) % 0x1_0000_0000 - 0x8000_0000
  }

  /** The result of int64 arithmetic. */
  function Int64(n: int): (r: int)
    ensures -TWO63 <= r < TWO63 && (r - n) % (2 * TWO63) == 0 && (-TWO63 <= n < TWO63 ==> r == n)
  {
    (n + 0x8000_0000_0000_0000) % 0x1_0000_0000_0000_0000 - 0x8000_0000_0000_0000
  }

  function Min(a: int, b: int): int {
    if a < b then a else b
  }

  function Max(a: int, b: int): int {
    if a < b then b else a
  }
}
