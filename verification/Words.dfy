/** Machine words of the MC68000 family: 16-bit instruction words, 32-bit
    operand values, and the byte streams the assembler writes. */
module Words {
  type Word = bv16
  type Long = bv32

  /** The high half of a long. */
  function High(value: Long): Word {
    (value >> 16) as bv16
  }

  /** The low half of a long. */
  function Low(value: Long): Word {
    (value & 0xffff) as bv16
  }

  /** A long from its two halves. */
  function Join(high: Word, low: Word): Long {
    ((high as bv32) << 16) | (low as bv32)
  }

  /** Sign extension of a word, as the processor extends a displacement. */
  function Extend(word: Word): Long {
    if word & 0x8000 != 0 then 0xffff_0000 | (word as bv32) else word as bv32
  }

  /** Sign extension of the low byte of a word. */
  function ExtendByte(word: Word): Long {
    if word & 0x80 != 0 then 0xffff_ff00 | ((word & 0xff) as bv32) else (word & 0xff) as bv32
  }

  lemma {:induction false} JoinHalves(value: Long)
    ensures Join(High(value), Low(value)) == value
  {
    assert (((value >> 16) as bv16) as bv32) == value >> 16;
    assert (((value & 0xffff) as bv16) as bv32) == value & 0xffff;
  }

  lemma {:induction false} MaskedHigh(word: Word)
    ensures (0xffff_0000 | (word as bv32)) & 0xffff == word as bv32
  {
  }

  lemma {:induction false} MaskedLow(word: Word)
    ensures (word as bv32) & 0xffff == word as bv32
  {
  }

  lemma {:induction false} ExtendedMask(word: Word)
    ensures Extend(word) & 0xffff == word as bv32
  {
    MaskedHigh(word);
    MaskedLow(word);
    assert Extend(word) == if word & 0x8000 != 0 then 0xffff_0000 | (word as bv32) else word as bv32;
    hide Extend;
  }

  lemma {:induction false} LowMask(value: Long)
    ensures Low(value) as bv32 == value & 0xffff
  {
  }

  lemma {:induction false} SameWords(x: Word, y: Word)
    ensures x as bv32 == y as bv32 <==> x == y
  {
  }

  /** The low half of an extended word is the word. */
  lemma {:induction false} LowOfExtended(word: Word)
    ensures Low(Extend(word)) == word
  {
    ExtendedMask(word);
    LowMask(Extend(word));
    SameWords(Low(Extend(word)), word);
    hide Low, Extend;
  }
}
