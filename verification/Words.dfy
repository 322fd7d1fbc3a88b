/** Register words. */
module Words {
  /** A register word, as the set of the positions of its one bits: x | mask is x + mask, x & ~mask is
      x - mask, and mask = {n} stands for 1 << n. */
  type Word = set<int>

  function MoveBit(word: Word, bit: int, level: bool): Word {
    if level then word + {bit} else word - {bit}
  }

  /** Bits 8 to 15 of a word: (val >> 8) & 0xFF. */
  function SecondByte(word: Word): Word {
    set n | n in word && 8 <= n < 16
  }
}
