/** Resolved operands and their effective-address encoding
    (section 2.2 of the M68000 Family Programmer's Reference Manual). */
module Operands {
  import opened Words
  import opened Outcomes

  datatype Size = ByteSize | WordSize | LongSize {
    /** The two-bit size field of most instructions. */
    function Field(): Word {
      match this
      case ByteSize => 0
      case WordSize => 1
      case LongSize => 2
    }
  }

  // The loader numbers A0-A7 as 0-7 and D0-D7 as 8-15.
  type AddressNumber = n: bv16 | n < 8
  type DataNumber = n: bv16 | 8 <= n < 16 witness 8
  type RegisterNumber = n: bv16 | n < 16

  datatype Scale = X1 | X2 | X4 | X8 {
    function Log2(): Word {
      match this
      case X1 => 0
      case X2 => 1
      case X4 => 2
      case X8 => 3
    }
  }

  datatype Index = Index(register: RegisterNumber, long: bool, scale: Scale)

  datatype Operand =
    | DataRegister(data: DataNumber)
    | AddressRegister(address: AddressNumber)
    | Indirect(
        base: AddressNumber,
        offset: Long,
        preDecrement: bool,
        postIncrement: bool,
        index: Option<Index>,
        pcRelative: bool)
    | Immediate(value: Long)
    | Absolute(value: Long)
    | Relative(displacement: Long) // a branch target as the processor sees it, from the word after the opcode
    | RegisterList(registers: seq<RegisterNumber>)

  /** The six mode-and-register bits and the extension words that follow. */
  datatype EffectiveAddress = EffectiveAddress(bits: Word, extensions: seq<Word>)

  function ImmediateWords(value: Long, size: Size): seq<Word> {
    if size == LongSize then [High(value), Low(value)] else [Low(value)]
  }

  function IndexWord(index: Index, offset: Long): Word {
    var address := index.register < 8;
    var register := if address then index.register else index.register - 8;
    (if address then 0x8000 else 0)
    | (register << 12)
    | (if index.long then 0x0800 else 0)
    | (index.scale.Log2() << 9)
    | (Low(offset) & 0xff)
  }

  function EncodeEa(operand: Operand, size: Size): Result<EffectiveAddress> {
    match operand
    case DataRegister(n) => Ok(EffectiveAddress(n - 8, []))
    case AddressRegister(n) => Ok(EffectiveAddress(0x08 | n, []))
    case Indirect(n, offset, pre, post, index, pc) =>
      if pre then Ok(EffectiveAddress(0x20 | n, []))
      else if post then Ok(EffectiveAddress(0x18 | n, []))
      else if index.Some? then
        Ok(EffectiveAddress(if pc then 0x3b else 0x30 | n, [IndexWord(index.value, offset)]))
      else if offset != 0 then
        Ok(EffectiveAddress(if pc then 0x3a else 0x28 | n, [Low(offset)]))
      else Ok(EffectiveAddress(0x10 | n, []))
    case Immediate(value) => Ok(EffectiveAddress(0x3c, ImmediateWords(value, size)))
    case Absolute(value) => Ok(EffectiveAddress(0x39, [High(value), Low(value)]))
    case Relative(_) => Err("not an effective address")
    case RegisterList(_) => Err("not an effective address")
  }

  // --- The processor's reading of the same bits --------------------------------

  datatype Read<T> = Read(value: T, rest: seq<Word>)

  function DecodeIndex(word: Word): Index {
    Index(
      if word & 0x8000 != 0 then (word >> 12) & 7 else ((word >> 12) & 7) + 8,
      word & 0x0800 != 0,
      match (word >> 9) & 3
      case 0 => X1
      case 1 => X2
      case 2 => X4
      case _ => X8)
  }

  /** Reads the operand a mode-and-register field selects, taking its
      extension words from the front of `words`. */
  function DecodeEa(bits: Word, size: Size, words: seq<Word>): Option<Read<Operand>>
    requires bits < 64
  {
    if bits >> 3 == 7 then DecodeSpecial(bits & 7, size, words)
    else DecodeRegisterMode(bits >> 3, bits & 7, words)
  }

  /** Modes 0 to 6, which use an address or data register. */
  function DecodeRegisterMode(mode: Word, n: AddressNumber, words: seq<Word>): Option<Read<Operand>> {
    if mode == 0 then Some(Read(DataRegister(n + 8), words))
    else if mode == 1 then Some(Read(AddressRegister(n), words))
    else if mode == 2 then Some(Read(Indirect(n, 0, false, false, None, false), words))
    else if mode == 3 then Some(Read(Indirect(n, 0, false, true, None, false), words))
    else if mode == 4 then Some(Read(Indirect(n, 0, true, false, None, false), words))
    else if |words| == 0 then None
    else if mode == 5 then Some(Read(Indirect(n, Extend(words[0]), false, false, None, false), words[1..]))
    else DecodeBrief(n, false, words)
  }

  /** Mode 7: absolute, program-counter and immediate operands. */
  function DecodeSpecial(n: AddressNumber, size: Size, words: seq<Word>): Option<Read<Operand>> {
    if |words| == 0 then None
    else if n == 0 then Some(Read(Absolute(Extend(words[0])), words[1..]))
    else if n == 1 then
      if |words| < 2 then None
      else Some(Read(Absolute(Join(words[0], words[1])), words[2..]))
    else if n == 2 then Some(Read(Indirect(0, Extend(words[0]), false, false, None, true), words[1..]))
    else if n == 3 then DecodeBrief(0, true, words)
    else if n == 4 then
      if size == LongSize then
        if |words| < 2 then None
        else Some(Read(Immediate(Join(words[0], words[1])), words[2..]))
      else if size == WordSize then Some(Read(Immediate(words[0] as bv32), words[1..]))
      else Some(Read(Immediate((words[0] & 0xff) as bv32), words[1..]))
    else None
  }

  /** Brief-format indexing; bit 8 set announces the full format, which is not modelled. */
  function DecodeBrief(n: AddressNumber, pc: bool, words: seq<Word>): Option<Read<Operand>>
    requires |words| > 0
  {
    if words[0] & 0x0100 != 0 then None
    else Some(Read(Indirect(n, ExtendByte(words[0]), false, false, Some(DecodeIndex(words[0])), pc), words[1..]))
  }

  // --- When the two agree --------------------------------------------------------

  /** What is left of an immediate once it is cut to the operation size. */
  function Truncate(value: Long, size: Size): Long {
    match size
    case ByteSize => value & 0xff
    case WordSize => value & 0xffff
    case LongSize => value
  }

  function Truncated(operand: Operand, size: Size): Operand {
    if operand.Immediate? then Immediate(Truncate(operand.value, size)) else operand
  }

  /** One addressing mode at a time, a displacement that fits its field, and no
      zero displacement from the program counter. */
  predicate Representable(operand: Operand) {
    match operand
    case Indirect(n, offset, pre, post, index, pc) =>
      && (pc ==> n == 0)
      && (if pre || post then !(pre && post) && offset == 0 && index.None? && !pc
          else if index.Some? then ExtendByte(Low(offset)) == offset
          else Extend(Low(offset)) == offset && (pc ==> offset != 0))
    case Relative(_) => false
    case RegisterList(_) => false
    case _ => true
  }

  lemma {:induction false} IndexWordReads(index: Index, offset: Long)
    ensures IndexWord(index, offset) & 0x0100 == 0
    ensures DecodeIndex(IndexWord(index, offset)) == index
    ensures ExtendByte(IndexWord(index, offset)) == ExtendByte(Low(offset))
  {
  }

  /** A mode and a register share one field without disturbing each other. */
  lemma {:induction false} FieldParts(mode: bv16, n: AddressNumber)
    requires mode < 8
    ensures ((mode << 3) | n) >> 3 == mode
    ensures ((mode << 3) | n) & 7 == n
    ensures (mode << 3) | n < 64
  {
  }

  lemma {:induction false} IndexedRoundTrip(n: AddressNumber, offset: Long, index: Index, pc: bool, rest: seq<Word>)
    ensures DecodeBrief(n, pc, [IndexWord(index, offset)] + rest)
            == Some(Read(Indirect(n, ExtendByte(Low(offset)), false, false, Some(index), pc), rest))
  {
    IndexWordReads(index, offset);
    assert ([IndexWord(index, offset)] + rest)[1..] == rest;
  }

  /** The shape every case of the round trip has. */
  predicate ReadsBack(operand: Operand, size: Size, rest: seq<Word>)
    requires EncodeEa(operand, size).Ok?
  {
    var ea := EncodeEa(operand, size).value;
    && ea.bits < 64
    && (DecodeEa(ea.bits, size, ea.extensions + rest) == Some(Read(Truncated(operand, size), rest))
        <==> Representable(operand))
  }

  lemma {:induction false} SteppedRoundTrip(operand: Operand, size: Size, rest: seq<Word>)
    requires operand.Indirect? && (operand.preDecrement || operand.postIncrement)
    ensures ReadsBack(operand, size, rest)
  {
    FieldParts(if operand.preDecrement then 4 else 3, operand.base);
    assert [] + rest == rest;
  }

  lemma {:induction false} DisplacementWordReads(n: AddressNumber, offset: Long, size: Size, rest: seq<Word>)
    ensures DecodeRegisterMode(5, n, [Low(offset)] + rest)
            == Some(Read(Indirect(n, Extend(Low(offset)), false, false, None, false), rest))
    ensures DecodeSpecial(2, size, [Low(offset)] + rest)
            == Some(Read(Indirect(0, Extend(Low(offset)), false, false, None, true), rest))
  {
    assert ([Low(offset)] + rest)[1..] == rest;
  }

  lemma {:induction false} DisplacedRoundTrip(operand: Operand, size: Size, rest: seq<Word>)
    requires operand.Indirect? && !operand.preDecrement && !operand.postIncrement && operand.index.None?
    ensures ReadsBack(operand, size, rest)
  {
    var Indirect(n, offset, _, _, _, pc) := operand;
    if offset == 0 {
      FieldParts(2, n);
      assert [] + rest == rest;
    } else {
      FieldParts(5, n);
      DisplacementWordReads(n, offset, size, rest);
    }
  }

  lemma {:induction false} ScaledRoundTrip(operand: Operand, size: Size, rest: seq<Word>)
    requires operand.Indirect? && !operand.preDecrement && !operand.postIncrement && operand.index.Some?
    ensures ReadsBack(operand, size, rest)
  {
    var Indirect(n, offset, _, _, index, pc) := operand;
    FieldParts(6, n);
    IndexedRoundTrip(if pc then 0 else n, offset, index.value, pc, rest);
  }

  lemma {:induction false} ImmediateRoundTrip(value: Long, size: Size, rest: seq<Word>)
    ensures DecodeSpecial(4, size, ImmediateWords(value, size) + rest)
            == Some(Read(Immediate(Truncate(value, size)), rest))
  {
    var words := ImmediateWords(value, size) + rest;
    if size == LongSize {
      JoinHalves(value);
      assert words[2..] == rest;
    } else {
      assert words[1..] == rest;
      LowTruncates(value);
    }
  }

  lemma {:induction false} LowTruncates(value: Long)
    ensures (Low(value) as bv32) == value & 0xffff
    ensures ((Low(value) & 0xff) as bv32) == value & 0xff
  {
  }

  lemma {:induction false} AbsoluteRoundTrip(value: Long, size: Size, rest: seq<Word>)
    ensures DecodeSpecial(1, size, [High(value), Low(value)] + rest)
            == Some(Read(Absolute(value), rest))
  {
    JoinHalves(value);
    assert ([High(value), Low(value)] + rest)[2..] == rest;
  }

  /** Reading back an encoded effective address gives the operand itself,
      and consumes exactly its extension words, if and only if the operand is representable. */
  lemma {:induction false} EaRoundTrip(operand: Operand, size: Size, rest: seq<Word>)
    requires EncodeEa(operand, size).Ok?
    ensures ReadsBack(operand, size, rest)
  {
    match operand
    case DataRegister(n) =>
      assert [] + rest == rest;
    case AddressRegister(n) =>
      FieldParts(1, n);
      assert [] + rest == rest;
    case Indirect(_, _, pre, post, index, _) =>
      if pre || post {
        SteppedRoundTrip(operand, size, rest);
      } else if index.Some? {
        ScaledRoundTrip(operand, size, rest);
      } else {
        DisplacedRoundTrip(operand, size, rest);
      }
    case Immediate(value) => ImmediateRoundTrip(value, size, rest);
    case Absolute(value) => AbsoluteRoundTrip(value, size, rest);
    case Relative(_) =>
    case RegisterList(_) =>
  }
}
