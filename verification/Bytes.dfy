/** Bytes and the 32-bit modular arithmetic of sequence numbers. */
module Bytes {

  newtype byte = n: int | 0 <= n < 256

  const TWO_32: int := 0x1_0000_0000

  type u32 = n: int | 0 <= n < 0x1_0000_0000

  function Min(a: int, b: int): int {
    if a <= b then a else b
  }

  function Max(a: int, b: int): int {
    if a >= b then a else b
  }

  /** Wrapping addition and subtraction on unsigned 32-bit numbers. */
  function Add32(a: int, n: int): u32 {
    (a + n) % TWO_32
  }

  function Sub32(a: int, b: int): u32 {
    (a - b) % TWO_32
  }

  /** Saturating addition on unsigned 32-bit numbers. */
  function SatAdd32(a: nat, n: nat): nat {
    Min(a + n, TWO_32 - 1)
  }

  /** Sequence number comparison: the wrapped difference is positive as a signed number. */
  predicate SeqAfter(a: int, b: int) {
    0 < Sub32(a, b) < 0x8000_0000
  }

  lemma Sub32OfAdd32(a: int, n: int)
    requires 0 <= n < TWO_32
    ensures Sub32(Add32(a, n), a) == n
  {
  }

  lemma Sub32Self(a: int)
    ensures Sub32(a, a) == 0
  {
  }

  lemma Add32OfSub32(a: u32, b: int)
    ensures Add32(b, Sub32(a, b)) == a
  {
  }

  lemma Add32OfAdd32(a: int, m: int, n: int)
    ensures Add32(Add32(a, m), n) == Add32(a, m + n)
  {
  }

  /** Offsets below 2^32 are determined by their sequence numbers. */
  lemma Add32Injective(a: int, m: int, n: int)
    requires 0 <= m < TWO_32 && 0 <= n < TWO_32 && Add32(a, m) == Add32(a, n)
    ensures m == n
  {
  }
}
