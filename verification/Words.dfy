// The ranges of C's integer types.
module Words {

  const INT_MAX: nat := 0x7FFF_FFFF
  const UINT_MAX: nat := 0xFFFF_FFFF
  const WORD_32: nat := 0x1_0000_0000
  const WORD_64: nat := 0x1_0000_0000_0000_0000

  predicate IsInt(n: int) {
    -0x8000_0000 <= n < 0x8000_0000
  }
}
