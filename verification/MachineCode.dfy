/** Instruction words as image bytes: from the encoder, through the emission,
    back to the decoder. */
module MachineCode {
  import opened Outcomes
  import opened Words
  import opened Source
  import opened ProgramImage
  import A = Assembler
  import E = Encoder
  import D = Decoder
  import R = EncoderRoundTrip
  import Operands

  function HighByte(word: Word): bv8 {
    (word >> 8) as bv8
  }

  function LowByte(word: Word): bv8 {
    (word & 0xff) as bv8
  }

  function FromBytes(high: bv8, low: bv8): Word {
    ((high as bv16) << 8) | (low as bv16)
  }

  lemma {:induction false} BytesOfWord(word: Word)
    ensures FromBytes(HighByte(word), LowByte(word)) == word
  {
    assert (((word >> 8) as bv8) as bv16) == word >> 8;
    assert (((word & 0xff) as bv8) as bv16) == word & 0xff;
  }

  function ToByte(b: bv8): Byte {
    b as int
  }

  function FromByte(b: Byte): bv8 {
    b as bv8
  }

  lemma {:induction false} ByteAndBack(b: bv8)
    ensures FromByte(ToByte(b)) == b
  {
  }

  /** The words' bytes, the high byte of each word first. */
  function WordBytes(words: seq<Word>): (bytes: seq<Byte>)
    ensures |bytes| == 2 * |words|
  {
    if words == [] then []
    else
      var word := words[|words| - 1];
      WordBytes(words[..|words| - 1]) + [ToByte(HighByte(word)), ToByte(LowByte(word))]
  }

  method WordsToBytes(words: seq<Word>) returns (bytes: array<Byte>)
    ensures bytes[..] == WordBytes(words)
  {
    hide ToByte, HighByte, LowByte;
    bytes := new Byte[|words| * 2];
    for index := 0 to |words|
      invariant bytes[..index * 2] == WordBytes(words[..index])
    {
      assert words[..index + 1][..index] == words[..index];
      bytes[index * 2] := ToByte(HighByte(words[index]));
      bytes[index * 2 + 1] := ToByte(LowByte(words[index]));
      assert bytes[..(index + 1) * 2]
          == bytes[..index * 2] + [ToByte(HighByte(words[index])), ToByte(LowByte(words[index]))];
    }
    assert words[..|words|] == words;
    assert bytes[..|words| * 2] == bytes[..];
  }

  lemma {:induction false} WordBytesAt(words: seq<Word>, k: nat)
    requires k < |words|
    ensures WordBytes(words)[2 * k] == ToByte(HighByte(words[k]))
    ensures WordBytes(words)[2 * k + 1] == ToByte(LowByte(words[k]))
  {
    hide ToByte, HighByte, LowByte;
    if k < |words| - 1 {
      WordBytesAt(words[..|words| - 1], k);
    }
  }

  /** The bytes of `n` words from an address on are there. */
  predicate Present(bytes: map<nat, Byte>, start: nat, n: nat) {
    forall j :: start <= j < start + 2 * n ==> j in bytes
  }

  function WordAt(bytes: map<nat, Byte>, address: nat): Word
    requires address in bytes && address + 1 in bytes
  {
    FromBytes(FromByte(bytes[address]), FromByte(bytes[address + 1]))
  }

  /** The words the processor reads from an address on. */
  function ImageWords(bytes: map<nat, Byte>, start: nat, n: nat): (words: seq<Word>)
    requires Present(bytes, start, n)
    ensures |words| == n
  {
    seq(n, k requires 0 <= k < n => WordAt(bytes, start + 2 * k))
  }

  /** Words that lie in an image as bytes are read from it as words. */
  lemma {:induction false} WordsAreReadBack(words: seq<Word>, bytes: map<nat, Byte>, start: nat)
    requires A.Lies(WordBytes(words), start, bytes)
    ensures Present(bytes, start, |words|) && ImageWords(bytes, start, |words|) == words
  {
    hide ToByte, FromByte, HighByte, LowByte, FromBytes, WordBytes;
    var code := WordBytes(words);
    forall j | start <= j < start + 2 * |words|
      ensures j in bytes
    {
      assert A.HasByte(bytes, start + (j - start), code[j - start]);
    }
    forall k | 0 <= k < |words|
      ensures WordAt(bytes, start + 2 * k) == words[k]
    {
      assert A.HasByte(bytes, start + 2 * k, code[2 * k]);
      assert A.HasByte(bytes, start + (2 * k + 1), code[2 * k + 1]);
      WordBytesAt(words, k);
      ByteAndBack(HighByte(words[k]));
      ByteAndBack(LowByte(words[k]));
      BytesOfWord(words[k]);
    }
  }

  function AddressOf(start: nat): Long {
    Unsigned(start) as bv32
  }

  /** Statement `k` is this instruction, encoded at the address where it is emitted. */
  ghost predicate IsInstructionAt(p: A.Program, symbols: Symbols, k: nat, i: E.Instruction)
    requires k < |p.statements|
  {
    && A.EmissionStart(p, symbols, k).Ok?
    && var start := A.EmissionStart(p, symbols, k).value;
      && R.Legal(i, AddressOf(start))
      && E.Encode(i, AddressOf(start)).Ok?
      && A.Code(p.statements[k], symbols, start) == Ok(WordBytes(E.Encode(i, AddressOf(start)).value))
  }

  /** End to end: in an image assembled without going back or past 2^32, the
      words at an instruction's address are its encoding, and decoding them
      gives the instruction back. */
  lemma {:induction false} AssembledCodeDecodes(p: A.Program, symbols: Symbols, e: A.Emission, k: nat, i: E.Instruction)
    requires A.Emit(p, symbols, |p.statements|) == Ok(e) && e.cursor <= TWO_TO_32 && A.Forward(p, symbols)
    requires k < |p.statements| && IsInstructionAt(p, symbols, k, i)
    ensures var start := A.EmissionStart(p, symbols, k).value;
      var words := E.Encode(i, AddressOf(start)).value;
      && Present(e.output.bytes, start, |words|)
      && D.Decode(ImageWords(e.output.bytes, start, |words|)) == Some(Operands.Read(R.Canonical(i, AddressOf(start)), []))
  {
    hide A.Code, A.EmissionStart, A.Emit, A.Forward, R.Legal, R.Canonical, D.Decode, E.Encode, WordBytes, AddressOf;
    var address := AddressOf(A.EmissionStart(p, symbols, k).value);
    var words := E.Encode(i, address).value;
    A.EmittedCodeStays(p, symbols, |p.statements|, e);
    assert A.HoldsCode(p, symbols, k, e.output.bytes);
    WordsAreReadBack(words, e.output.bytes, A.EmissionStart(p, symbols, k).value);
    R.RoundTrip(i, address, []);
    assert words + [] == words;
  }
}
