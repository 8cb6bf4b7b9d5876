/** Go's `uint64` as a bounded integer, with the wrap-around of its
    subtraction and addition written out. */
module UInt64 {

  /** 2^64: one more than the largest `uint64`. */
  const MODULUS: int := 0x1_0000_0000_0000_0000

  /** A Go `uint64`. */
  type u64 = x: int | 0 <= x < MODULUS

  /** Go's `a - b` on `uint64`: the difference modulo 2^64. */
  function Sub(a: u64, b: u64): (r: u64)
    ensures b <= a ==> r == a - b
    ensures a < b ==> r + b == a + MODULUS
  {
    (a - b) % MODULUS
  }

  /** Go's `a + b` on `uint64`: the sum modulo 2^64. */
  function Add(a: u64, b: u64): (r: u64)
    ensures a + b < MODULUS ==> r == a + b
    ensures MODULUS <= a + b ==> r == a + b - MODULUS
  {
    (a + b) % MODULUS
  }

  /** Wrapping addition undoes wrapping subtraction, whichever operand is larger. */
  lemma AddUndoesSub(a: u64, b: u64)
    ensures Add(Sub(a, b), b) == a
  {
  }
}
