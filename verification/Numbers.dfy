/** Bytes and the smaller of two numbers. */
module Numbers {
  type Byte = n: int | 0 <= n < 256

  function Min(a: nat, b: nat): nat {
    if a < b then a else b
  }
}
