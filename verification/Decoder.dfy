/** The processor's reading of instruction words, written from section 8 of the
    M68000 Family Programmer's Reference Manual, one opcode line at a time.
    It covers the instructions the encoder module models and rejects the rest. */
module Decoder {
  import opened Words
  import opened Outcomes
  import opened Operands
  import opened Encoder
  import Movem

  // --- Addressing categories (section 2.3) ------------------------------------------

  predicate DataAlterable(operand: Operand) {
    || operand.DataRegister?
    || operand.Absolute?
    || (operand.Indirect? && !operand.pcRelative)
  }

  predicate MemoryAlterable(operand: Operand) {
    DataAlterable(operand) && !operand.DataRegister?
  }

  predicate Control(operand: Operand) {
    || operand.Absolute?
    || (operand.Indirect? && !operand.preDecrement && !operand.postIncrement)
  }

  /** Address registers have no byte operations. */
  predicate Readable(operand: Operand, size: Size) {
    !operand.RegisterList? && !operand.Relative? && !(operand.AddressRegister? && size == ByteSize)
  }

  function SizeOf(field: Word): Option<Size> {
    if field == 0 then Some(ByteSize)
    else if field == 1 then Some(WordSize)
    else if field == 2 then Some(LongSize)
    else None
  }

  // --- Opcode lines --------------------------------------------------------------------

  function Decode(words: seq<Word>): Option<Read<Instruction>> {
    if words == [] then None
    else
      var w, rest := words[0], words[1..];
      var line := w >> 12;
      if line == 0 then DecodeImmediate(w, rest)
      else if line == 1 then DecodeMove(w, ByteSize, rest)
      else if line == 2 then DecodeMove(w, LongSize, rest)
      else if line == 3 then DecodeMove(w, WordSize, rest)
      else if line == 4 then DecodeMiscellaneous(w, rest)
      else if line == 5 then DecodeQuick(w, rest)
      else if line == 6 then DecodeBranch(w, rest)
      else if line == 7 then DecodeMoveq(w, rest)
      else if line == 8 then DecodeAlu(w, Or, rest)
      else if line == 9 then DecodeAlu(w, Sub, rest)
      else if line == 11 then DecodeAlu(w, Cmp, rest)
      else if line == 12 then DecodeAlu(w, And, rest)
      else if line == 13 then DecodeAlu(w, Add, rest)
      else None
  }

  function DecodeMove(w: Word, size: Size, words: seq<Word>): Option<Read<Instruction>> {
    match DecodeEa(w & 0x3f, size, words)
    case None => None
    case Some(Read(source, rest)) =>
      match DecodeEa(((w >> 3) & 0x38) | ((w >> 9) & 7), size, rest)
      case None => None
      case Some(Read(destination, rest')) =>
        if !Readable(source, size) then None
        else if destination.AddressRegister? then
          if size == ByteSize then None
          else Some(Read(Instruction(Movea, size, [source, destination]), rest'))
        else if DataAlterable(destination) then
          Some(Read(Instruction(Move, size, [source, destination]), rest'))
        else None
  }

  function ImmediateKind(selector: Word): Option<AluKind> {
    if selector == 0 then Some(Or)
    else if selector == 1 then Some(And)
    else if selector == 2 then Some(Sub)
    else if selector == 3 then Some(Add)
    else if selector == 5 then Some(Eor)
    else if selector == 6 then Some(Cmp)
    else None
  }

  function DecodeImmediate(w: Word, words: seq<Word>): Option<Read<Instruction>> {
    var kind, size := ImmediateKind((w >> 9) & 7), SizeOf((w >> 6) & 3);
    if w & 0x0100 != 0 || kind.None? || size.None? then None
    else
      match DecodeSpecial(4, size.value, words)
      case None => None
      case Some(Read(immediate, rest)) =>
        match DecodeEa(w & 0x3f, size.value, rest)
        case None => None
        case Some(Read(destination, rest')) =>
          if DataAlterable(destination) then
            Some(Read(Instruction(AluImmediate(kind.value), size.value, [immediate, destination]), rest'))
          else None
  }

  /** LEA and MOVEM. */
  function DecodeMiscellaneous(w: Word, words: seq<Word>): Option<Read<Instruction>> {
    if w & 0x01c0 == 0x01c0 then
      match DecodeEa(w & 0x3f, LongSize, words)
      case None => None
      case Some(Read(source, rest)) =>
        if Control(source) then
          Some(Read(Instruction(Lea, LongSize, [source, AddressRegister((w >> 9) & 7)]), rest))
        else None
    else if w & 0x0b80 == 0x0880 && |words| > 0 then
      DecodeMovem(w, words[0], words[1..])
    else None
  }

  function DecodeMovem(w: Word, mask: Word, words: seq<Word>): Option<Read<Instruction>> {
    var size := if w & 0x0040 != 0 then LongSize else WordSize;
    match DecodeEa(w & 0x3f, size, words)
    case None => None
    case Some(Read(memory, rest)) =>
      var list := RegisterList(Movem.ReadMask(mask, (w >> 3) & 7 == 4));
      if !memory.Indirect? && !memory.Absolute? then None
      else if w & 0x0400 != 0 then Some(Read(Instruction(MoveMultiple, size, [memory, list]), rest))
      else Some(Read(Instruction(MoveMultiple, size, [list, memory]), rest))
  }

  /** ADDQ and SUBQ, whose data field 0 stands for 8, or with the size field 3 the conditional group. */
  function DecodeQuick(w: Word, words: seq<Word>): Option<Read<Instruction>> {
    var size := SizeOf((w >> 6) & 3);
    if size.None? then DecodeConditional(w, words)
    else
      match DecodeEa(w & 0x3f, size.value, words)
      case None => None
      case Some(Read(destination, rest)) =>
        var field := (w >> 9) & 7;
        var data := Immediate(if field == 0 then 8 else field as bv32);
        if DataAlterable(destination) || (destination.AddressRegister? && size.value != ByteSize) then
          Some(Read(Instruction(Quick(w & 0x0100 != 0), size.value, [data, destination]), rest))
        else None
  }

  function SuffixOf(code: Word): Suffix {
    if code == 0 then RA else if code == 1 then SR else if code == 2 then HI else if code == 3 then LS
    else if code == 4 then CC else if code == 5 then CS else if code == 6 then NE else if code == 7 then EQ
    else if code == 8 then VC else if code == 9 then VS else if code == 10 then PL else if code == 11 then MI
    else if code == 12 then GE else if code == 13 then LT else if code == 14 then GT else LE
  }

  /** DBcc, TRAPcc without an operand, and Scc; the conditions "true" and
      "false" have no suffix, but DBF is DBRA. */
  function DecodeConditional(w: Word, words: seq<Word>): Option<Read<Instruction>> {
    var code := (w >> 8) & 0xf;
    if (w >> 3) & 7 == 1 then
      if code == 0 || |words| < 1 then None
      else
        Some(Read(Instruction(Dbcc(if code == 1 then RA else SuffixOf(code)), WordSize,
                              [DataRegister((w & 7) + 8), Relative(Extend(words[0]))]), words[1..]))
    else if code < 2 then None
    else if w & 0x3f == 0x3c then Some(Read(Instruction(Trapcc(SuffixOf(code)), WordSize, []), words))
    else
      match DecodeEa(w & 0x3f, ByteSize, words)
      case None => None
      case Some(Read(destination, rest)) =>
        if DataAlterable(destination) then Some(Read(Instruction(Scc(SuffixOf(code)), ByteSize, [destination]), rest))
        else None
  }

  /** Displacements count from the word after the opcode. */
  function DecodeBranch(w: Word, words: seq<Word>): Option<Read<Instruction>> {
    var operation := Branch(SuffixOf((w >> 8) & 0xf));
    if w & 0xff == 0 then
      if |words| < 1 then None
      else Some(Read(Instruction(operation, WordSize, [Relative(Extend(words[0]))]), words[1..]))
    else if w & 0xff == 0xff then
      if |words| < 2 then None
      else Some(Read(Instruction(operation, LongSize, [Relative(Join(words[0], words[1]))]), words[2..]))
    else Some(Read(Instruction(operation, ByteSize, [Relative(ExtendByte(w))]), words))
  }

  function DecodeMoveq(w: Word, words: seq<Word>): Option<Read<Instruction>> {
    if w & 0x0100 != 0 then None
    else
      Some(Read(Instruction(Moveq, LongSize,
                            [Immediate(ExtendByte(w)), DataRegister(((w >> 9) & 7) + 8)]), words))
  }

  /** The two-operand register forms. With the direction bit clear the data
      register is the destination. With it set, memory is, and the register
      modes belong to other instructions; on line 11 it selects EOR, which may
      write a data register. */
  function DecodeAlu(w: Word, kind: AluKind, words: seq<Word>): Option<Read<Instruction>> {
    var size := SizeOf((w >> 6) & 3);
    if size.None? then None
    else
      match DecodeEa(w & 0x3f, size.value, words)
      case None => None
      case Some(Read(ea, rest)) =>
        var register := DataRegister(((w >> 9) & 7) + 8);
        if w & 0x0100 == 0 then
          if Readable(ea, size.value) && !(kind in {Or, And} && ea.AddressRegister?) then
            Some(Read(Instruction(Alu(kind), size.value, [ea, register]), rest))
          else None
        else if kind == Cmp then
          if DataAlterable(ea) then Some(Read(Instruction(Alu(Eor), size.value, [register, ea]), rest))
          else None
        else if MemoryAlterable(ea) then
          Some(Read(Instruction(Alu(kind), size.value, [register, ea]), rest))
        else None
  }
}
