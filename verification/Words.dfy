/** The types every module shares: Go's `uint64` with the operators that wrap around, and ids. */
module Words {

  /** Swarm service ids; only their equality matters. */
  type ServiceId = nat

  const WORD_MODULUS: int := 0x1_0000_0000_0000_0000

  type Word = x: int | 0 <= x < WORD_MODULUS

  function Add(a: Word, b: Word): Word {
    if a + b >= WORD_MODULUS then a + b - WORD_MODULUS else a + b
  }

  function Sub(a: Word, b: Word): Word {
    if a < b then a - b + WORD_MODULUS else a - b
  }

  function Distance(a: int, b: int): nat {
    if a <= b then b - a else a - b
  }
}
