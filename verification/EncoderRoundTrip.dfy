/** Decoding undoes encoding: one instruction at a time, and whole streams. */
module EncoderRoundTrip {
  import opened Words
  import opened Outcomes
  import opened Operands
  import opened Encoder
  import opened Decoder
  import Movem

  // --- Opcode fields, one word shape at a time ------------------------------------------

  /** Line, two three-bit fields and an effective address occupy separate bits. */
  lemma {:induction false} PackedFields(line: Word, high: Word, middle: Word, low: Word)
    requires line & 0x0fff == 0 && high < 8 && middle < 8 && low < 64
    ensures var w := line | (high << 9) | (middle << 6) | low;
      && w >> 12 == line >> 12
      && (w >> 9) & 7 == high
      && (w >> 6) & 7 == middle
      && w & 0x3f == low
  {
  }

  lemma {:induction false} SplitMode(bits: Word)
    requires bits < 64
    ensures bits & 7 < 8 && (bits >> 3) & 7 < 8
    ensures (((bits >> 3) & 7) << 3) | (bits & 7) == bits
  {
  }

  lemma {:induction false} MiddleAsMode(w: Word)
    ensures (w >> 3) & 0x38 == ((w >> 6) & 7) << 3
  {
  }

  lemma {:induction false} MoveFields(size: Size, source: Word, destination: Word)
    requires source < 64 && destination < 64
    ensures var w := MoveWord(size, source, destination);
      && w >> 12 == (match size case ByteSize => 1 case LongSize => 2 case WordSize => 3)
      && w & 0x3f == source
      && ((w >> 3) & 0x38) | ((w >> 9) & 7) == destination
  {
    SplitMode(destination);
    PackedFields(MoveBase(size), destination & 7, (destination >> 3) & 7, source);
    MiddleAsMode(MoveWord(size, source, destination));
  }

  lemma {:induction false} OperationMode(w: Word)
    ensures w & 0x0100 != 0 <==> (w >> 6) & 7 >= 4
    ensures (w >> 6) & 3 == ((w >> 6) & 7) & 3
  {
  }

  lemma {:induction false} SizedFields(kind: AluKind, size: Size, bits: Word)
    requires bits < 64
    ensures var w := SizedWord(kind.ImmediateBase(), size, bits);
      && w >> 12 == 0
      && w & 0x0100 == 0
      && ImmediateKind((w >> 9) & 7) == Some(kind)
      && SizeOf((w >> 6) & 3) == Some(size)
      && w & 0x3f == bits
  {
  }

  lemma {:induction false} QuickFields(subtract: bool, size: Size, quick: Word, bits: Word)
    requires quick < 8 && bits < 64
    ensures var w := QuickWord(subtract, size, quick, bits);
      && w >> 12 == 5
      && (w & 0x0100 != 0 <==> subtract)
      && (w >> 9) & 7 == quick
      && SizeOf((w >> 6) & 3) == Some(size)
      && w & 0x3f == bits
  {
  }

  lemma {:induction false} AluFields(kind: AluKind, register: Word, size: Size, toMemory: bool, bits: Word)
    requires register < 8 && bits < 64
    ensures var w := AluWord(kind, register, size, toMemory, bits);
      && w >> 12 == kind.Line() >> 12
      && (w & 0x0100 != 0 <==> toMemory)
      && (w >> 9) & 7 == register
      && SizeOf((w >> 6) & 3) == Some(size)
      && w & 0x3f == bits
  {
    PackedFields(kind.Line(), register, size.Field() + if toMemory then 4 else 0, bits);
    OperationMode(AluWord(kind, register, size, toMemory, bits));
  }

  lemma {:induction false} MovemFields(toRegisters: bool, size: Size, bits: Word)
    requires bits < 64
    ensures var w := MovemWord(toRegisters, size, bits);
      && w >> 12 == 4
      && w & 0x01c0 != 0x01c0
      && w & 0x0b80 == 0x0880
      && (w & 0x0400 != 0 <==> toRegisters)
      && (w & 0x0040 != 0 <==> size == LongSize)
      && w & 0x3f == bits
      && (w >> 3) & 7 == bits >> 3
  {
  }

  lemma {:induction false} LeaFields(register: Word, bits: Word)
    requires register < 8 && bits < 64
    ensures var w := LeaWord(register, bits);
      && w >> 12 == 4
      && w & 0x01c0 == 0x01c0
      && (w >> 9) & 7 == register
      && w & 0x3f == bits
  {
  }

  lemma {:induction false} MoveqFields(register: Word, value: Long)
    requires register < 8
    ensures var w := 0x7000 | (register << 9) | (Low(value) & 0xff);
      && w >> 12 == 7
      && w & 0x0100 == 0
      && (w >> 9) & 7 == register
      && ExtendByte(w) == ExtendByte(Low(value))
  {
  }

  lemma {:induction false} BranchFields(suffix: Suffix)
    ensures var w := 0x6000 | (suffix.Code() << 8);
      w >> 12 == 6 && w & 0xff == 0 && (w >> 8) & 0xf == suffix.Code()
    ensures var w := 0x60ff | (suffix.Code() << 8);
      w >> 12 == 6 && w & 0xff == 0xff && (w >> 8) & 0xf == suffix.Code()
  {
  }

  // --- Legal source instructions ----------------------------------------------------------

  /** Whether the displacement of a branch fits the form its size selects. */
  predicate BranchReaches(size: Size, target: Long, address: Long) {
    var displacement := Displacement(target, address);
    size == LongSize || Extend(Low(displacement)) == displacement
  }

  predicate LegalMove(size: Size, source: Operand, destination: Operand) {
    && Representable(source) && Readable(source, size)
    && Representable(destination)
    && (DataAlterable(destination) || (destination.AddressRegister? && size != ByteSize))
  }

  predicate LegalMovem(size: Size, toRegisters: bool, memory: Operand) {
    && size != ByteSize
    && Representable(memory)
    && (memory.Absolute?
        || (memory.Indirect?
            && if toRegisters then !memory.preDecrement else !memory.postIncrement && !memory.pcRelative))
  }

  /** The register form of a two-operand operation names a data register. */
  predicate LegalAlu(size: Size, kind: AluKind, first: Operand, second: Operand) {
    && !first.Immediate?
    && (first.DataRegister? || second.DataRegister?)
    && (kind == Cmp ==> second.DataRegister?)
    && Representable(first) && Readable(first, size)
    && Representable(second)
    && !second.Immediate?
    && !(second.Indirect? && second.pcRelative)
  }

  predicate Legal(i: Instruction, address: Long) {
    match i.operation
    case Moveq =>
      && |i.operands| == 2
      && i.operands[0].Immediate? && i.operands[1].DataRegister?
      && ExtendByte(Low(i.operands[0].value)) == i.operands[0].value
    case Move => |i.operands| == 2 && LegalMove(i.size, i.operands[0], i.operands[1])
    case Movea =>
      |i.operands| == 2 && i.operands[1].AddressRegister? && LegalMove(i.size, i.operands[0], i.operands[1])
    case Quick(_) =>
      && |i.operands| == 2
      && i.operands[0].Immediate? && 1 <= i.operands[0].value <= 8
      && Representable(i.operands[1])
      && (DataAlterable(i.operands[1]) || (i.operands[1].AddressRegister? && i.size != ByteSize))
    case AluImmediate(_) => LegalImmediate(i)
    case Alu(kind) =>
      if |i.operands| == 2 && i.operands[0].Immediate? then LegalImmediate(i)
      else
        && |i.operands| == 2
        && LegalAlu(i.size, kind, i.operands[0], i.operands[1])
        && KeepsItsMeaning(kind, i.operands[0], i.operands[1])
    case Branch(_) =>
      |i.operands| == 1 && i.operands[0].Absolute? && BranchReaches(i.size, i.operands[0].value, address)
    case Lea =>
      && |i.operands| == 2
      && Representable(i.operands[0]) && Control(i.operands[0])
      && i.operands[1].AddressRegister?
    case MoveMultiple =>
      && |i.operands| == 2
      && (if i.operands[0].RegisterList? then LegalMovem(i.size, false, i.operands[1])
          else i.operands[1].RegisterList? && LegalMovem(i.size, true, i.operands[0]))
    case Dbcc(suffix) =>
      && NamesCondition(suffix)
      && |i.operands| == 2
      && i.operands[0].DataRegister? && i.operands[1].Absolute?
      && BranchReaches(WordSize, i.operands[1].value, address)
    case Scc(suffix) =>
      NamesCondition(suffix) && |i.operands| == 1 && Representable(i.operands[0]) && DataAlterable(i.operands[0])
    case Trapcc(suffix) => NamesCondition(suffix) && i.operands == []
  }

  /** RA and SR belong to branches alone: their codes mean "true" and "false" elsewhere. */
  predicate NamesCondition(suffix: Suffix) {
    !suffix.RA? && !suffix.SR?
  }

  predicate LegalImmediate(i: Instruction) {
    && |i.operands| == 2
    && i.operands[0].Immediate?
    && Representable(i.operands[1]) && DataAlterable(i.operands[1])
  }

  /** The guard under which the register form of the encoder is the instruction
      its mnemonic names: EOR must not meet the branch that treats two data
      registers, or a memory source, as a register destination; an address
      register is never written; and AND and OR never read one. */
  predicate KeepsItsMeaning(kind: AluKind, first: Operand, second: Operand) {
    && (kind == Eor ==> !second.DataRegister?)
    && !second.AddressRegister?
    && (kind in {And, Or} ==> !first.AddressRegister?)
  }

  // --- The form an instruction has once assembled ------------------------------------------

  /** A register list as the mask remembers it. */
  function Masked(list: Operand, memory: Operand): Operand
    requires list.RegisterList?
  {
    var predecrement := memory.Indirect? && memory.preDecrement;
    RegisterList(Movem.ReadMask(Movem.Mask(list.registers, predecrement), predecrement))
  }

  function CanonicalSuffix(suffix: Suffix): Suffix {
    match suffix
    case HS => CC
    case LO => CS
    case _ => suffix
  }

  /** Aliases resolved, immediates cut to size, implied sizes made explicit,
      register lists in mask order and branch targets counted from the word
      after the opcode; everything else is as written. */
  function Canonical(i: Instruction, address: Long): Instruction {
    if |i.operands| == 0 then
      if i.operation.Trapcc? then Instruction(Trapcc(CanonicalSuffix(i.operation.suffix)), WordSize, []) else i
    else if |i.operands| == 1 then
      if i.operation.Scc? then Instruction(Scc(CanonicalSuffix(i.operation.suffix)), ByteSize, i.operands)
      else if i.operation.Branch? then
        Instruction(Branch(CanonicalSuffix(i.operation.suffix)),
                    if i.size == LongSize then LongSize else WordSize,
                    [Relative(Displacement(Value(i.operands[0]), address))])
      else i
    else
      var a, b := i.operands[0], i.operands[1];
      match i.operation
      case Moveq => i.(size := LongSize)
      case Move => Instruction(if b.AddressRegister? then Movea else Move, i.size, [Truncated(a, i.size), b])
      case Movea => i.(operands := [Truncated(a, i.size), b])
      case AluImmediate(_) => i.(operands := [Truncated(a, i.size), b])
      case Alu(kind) =>
        if a.Immediate? then Instruction(AluImmediate(kind), i.size, [Truncated(a, i.size), b]) else i
      case Lea => i.(size := LongSize)
      case Dbcc(suffix) =>
        Instruction(Dbcc(CanonicalSuffix(suffix)), WordSize, [a, Relative(Displacement(Value(b), address))])
      case MoveMultiple =>
        if a.RegisterList? then i.(operands := [Masked(a, b), b])
        else if b.RegisterList? then i.(operands := [a, Masked(b, a)])
        else i
      case _ => i
  }

  /** The statement proved for each kind of instruction. */
  predicate RoundTrips(i: Instruction, address: Long, rest: seq<Word>) {
    && Encode(i, address).Ok?
    && Decode(Encode(i, address).value + rest) == Some(Read(Canonical(i, address), rest))
  }

  // --- Proofs by kind -----------------------------------------------------------------------

  /** Six bits are enough for every encodable operand. */
  lemma {:induction false} EaFits(operand: Operand, size: Size)
    requires !operand.RegisterList? && !operand.Relative?
    ensures EncodeEa(operand, size).Ok?
    ensures EncodeEa(operand, size).value.bits < 64
  {
    EaRoundTrip(operand, size, []);
  }

  lemma {:induction false} MoveReads(size: Size, a: Operand, b: Operand, w: Word, rest: seq<Word>)
    requires LegalMove(size, a, b)
    requires var source, destination := EncodeEa(a, size).value, EncodeEa(b, size).value;
      && source.bits < 64 && destination.bits < 64
      && w & 0x3f == source.bits
      && ((w >> 3) & 0x38) | ((w >> 9) & 7) == destination.bits
    ensures DecodeMove(w, size, EncodeEa(a, size).value.extensions + (EncodeEa(b, size).value.extensions + rest))
            == Some(Read(Instruction(if b.AddressRegister? then Movea else Move, size, [Truncated(a, size), b]), rest))
  {
    EaRoundTrip(a, size, EncodeEa(b, size).value.extensions + rest);
    EaRoundTrip(b, size, rest);
  }

  lemma {:induction false} MoveLine(w: Word, size: Size, tail: seq<Word>)
    requires w >> 12 == (match size case ByteSize => 1 case LongSize => 2 case WordSize => 3)
    ensures Decode([w] + tail) == DecodeMove(w, size, tail)
  {
    assert ([w] + tail)[1..] == tail;
  }

  lemma {:induction false} MoveStream(size: Size, source: EffectiveAddress, destination: EffectiveAddress, rest: seq<Word>)
    requires source.bits < 64 && destination.bits < 64
    ensures var w := MoveWord(size, source.bits, destination.bits);
      Decode([w] + source.extensions + destination.extensions + rest)
      == DecodeMove(w, size, source.extensions + (destination.extensions + rest))
  {
    var w := MoveWord(size, source.bits, destination.bits);
    var tail := source.extensions + (destination.extensions + rest);
    MoveFields(size, source.bits, destination.bits);
    MoveLine(w, size, tail);
    assert [w] + source.extensions + destination.extensions + rest == [w] + tail;
  }

  lemma {:induction false} MoveRoundTrips(size: Size, a: Operand, b: Operand, rest: seq<Word>)
    requires LegalMove(size, a, b)
    ensures var code := EncodeMove(Instruction(Move, size, [a, b]));
      && code.Ok?
      && Decode(code.value + rest)
         == Some(Read(Instruction(if b.AddressRegister? then Movea else Move, size, [Truncated(a, size), b]), rest))
  {
    EaFits(a, size);
    EaFits(b, size);
    var source, destination := EncodeEa(a, size).value, EncodeEa(b, size).value;
    MoveFields(size, source.bits, destination.bits);
    MoveStream(size, source, destination, rest);
    MoveReads(size, a, b, MoveWord(size, source.bits, destination.bits), rest);
  }

  // The two-operand group with an immediate source.

  lemma {:induction false} ImmediateReads(kind: AluKind, size: Size, value: Long, b: Operand, w: Word, rest: seq<Word>)
    requires Representable(b) && DataAlterable(b)
    requires EncodeEa(b, size).value.bits < 64 && w & 0x3f == EncodeEa(b, size).value.bits
    requires w & 0x0100 == 0 && ImmediateKind((w >> 9) & 7) == Some(kind) && SizeOf((w >> 6) & 3) == Some(size)
    ensures DecodeImmediate(w, ImmediateWords(value, size) + (EncodeEa(b, size).value.extensions + rest))
            == Some(Read(Instruction(AluImmediate(kind), size, [Immediate(Truncate(value, size)), b]), rest))
  {
    ImmediateRoundTrip(value, size, EncodeEa(b, size).value.extensions + rest);
    EaRoundTrip(b, size, rest);
  }

  lemma {:induction false} ImmediateStream(kind: AluKind, size: Size, bits: Word, tail: seq<Word>)
    requires bits < 64
    ensures var w := SizedWord(kind.ImmediateBase(), size, bits);
      Decode([w] + tail) == DecodeImmediate(w, tail)
  {
    var w := SizedWord(kind.ImmediateBase(), size, bits);
    SizedFields(kind, size, bits);
    assert ([w] + tail)[1..] == tail;
  }

  lemma {:induction false} ImmediateWhole(kind: AluKind, size: Size, value: Long, b: Operand, ea: EffectiveAddress, rest: seq<Word>)
    requires Representable(b) && DataAlterable(b)
    requires EncodeEa(b, size) == Ok(ea) && ea.bits < 64
    ensures Decode([SizedWord(kind.ImmediateBase(), size, ea.bits)] + (ImmediateWords(value, size) + (ea.extensions + rest)))
            == Some(Read(Instruction(AluImmediate(kind), size, [Immediate(Truncate(value, size)), b]), rest))
  {
    SizedFields(kind, size, ea.bits);
    ImmediateStream(kind, size, ea.bits, ImmediateWords(value, size) + (ea.extensions + rest));
    ImmediateReads(kind, size, value, b, SizedWord(kind.ImmediateBase(), size, ea.bits), rest);
  }

  lemma {:induction false} ImmediateRoundTrips(kind: AluKind, size: Size, value: Long, b: Operand, rest: seq<Word>)
    requires Representable(b) && DataAlterable(b)
    ensures var code := EncodeAluImmediate(Instruction(AluImmediate(kind), size, [Immediate(value), b]), kind);
      && code.Ok?
      && Decode(code.value + rest)
         == Some(Read(Instruction(AluImmediate(kind), size, [Immediate(Truncate(value, size)), b]), rest))
  {
    EaFits(b, size);
    var ea := EncodeEa(b, size).value;
    ImmediateWhole(kind, size, value, b, ea, rest);
    var w := SizedWord(kind.ImmediateBase(), size, ea.bits);
    Regroup(w, ImmediateWords(value, size), ea.extensions, rest);
  }

  lemma {:induction false} Regroup(w: Word, a: seq<Word>, b: seq<Word>, rest: seq<Word>)
    ensures [w] + a + b + rest == [w] + (a + (b + rest))
    ensures [w] + a + rest == [w] + (a + rest)
  {
  }

  // ADDQ and SUBQ.

  lemma {:induction false} QuickValue(value: Long)
    requires 1 <= value <= 8
    ensures Low(value) & 7 < 8
    ensures (if Low(value) & 7 == 0 then 8 else (Low(value) & 7) as bv32) == value
  {
  }

  lemma {:induction false} QuickReads(subtract: bool, size: Size, value: Long, b: Operand, w: Word, rest: seq<Word>)
    requires 1 <= value <= 8
    requires Representable(b) && (DataAlterable(b) || (b.AddressRegister? && size != ByteSize))
    requires EncodeEa(b, size).value.bits < 64 && w & 0x3f == EncodeEa(b, size).value.bits
    requires (w & 0x0100 != 0 <==> subtract) && (w >> 9) & 7 == Low(value) & 7 && SizeOf((w >> 6) & 3) == Some(size)
    ensures DecodeQuick(w, EncodeEa(b, size).value.extensions + rest)
            == Some(Read(Instruction(Quick(subtract), size, [Immediate(value), b]), rest))
  {
    QuickValue(value);
    EaRoundTrip(b, size, rest);
  }

  lemma {:induction false} QuickStream(subtract: bool, size: Size, quick: Word, bits: Word, tail: seq<Word>)
    requires quick < 8 && bits < 64
    ensures var w := QuickWord(subtract, size, quick, bits);
      Decode([w] + tail) == DecodeQuick(w, tail)
  {
    var w := QuickWord(subtract, size, quick, bits);
    QuickFields(subtract, size, quick, bits);
    assert ([w] + tail)[1..] == tail;
  }

  lemma {:induction false} QuickWhole(subtract: bool, size: Size, value: Long, b: Operand, ea: EffectiveAddress, rest: seq<Word>)
    requires 1 <= value <= 8
    requires Representable(b) && (DataAlterable(b) || (b.AddressRegister? && size != ByteSize))
    requires EncodeEa(b, size) == Ok(ea) && ea.bits < 64
    ensures Decode([QuickWord(subtract, size, Low(value) & 7, ea.bits)] + (ea.extensions + rest))
            == Some(Read(Instruction(Quick(subtract), size, [Immediate(value), b]), rest))
  {
    var quick := Low(value) & 7;
    QuickValue(value);
    QuickFields(subtract, size, quick, ea.bits);
    QuickStream(subtract, size, quick, ea.bits, ea.extensions + rest);
    QuickReads(subtract, size, value, b, QuickWord(subtract, size, quick, ea.bits), rest);
  }

  lemma {:induction false} QuickRoundTrips(subtract: bool, size: Size, value: Long, b: Operand, rest: seq<Word>)
    requires 1 <= value <= 8
    requires Representable(b) && (DataAlterable(b) || (b.AddressRegister? && size != ByteSize))
    ensures var i := Instruction(Quick(subtract), size, [Immediate(value), b]);
      EncodeQuick(i, subtract).Ok? && Decode(EncodeQuick(i, subtract).value + rest) == Some(Read(i, rest))
  {
    EaFits(b, size);
    var ea := EncodeEa(b, size).value;
    QuickWhole(subtract, size, value, b, ea, rest);
    Regroup(QuickWord(subtract, size, Low(value) & 7, ea.bits), ea.extensions, [], rest);
  }

  // The register forms of OR, SUB, CMP, EOR, AND and ADD.

  /** The kind whose opcode line the encoder shares: EOR lives on the line of CMP. */
  function LineKind(kind: AluKind): AluKind {
    if kind == Eor then Cmp else kind
  }

  lemma {:induction false} AluStream(kind: AluKind, register: Word, size: Size, toMemory: bool, bits: Word, tail: seq<Word>)
    requires register < 8 && bits < 64
    ensures var w := AluWord(kind, register, size, toMemory, bits);
      Decode([w] + tail) == DecodeAlu(w, LineKind(kind), tail)
  {
    var w := AluWord(kind, register, size, toMemory, bits);
    AluFields(kind, register, size, toMemory, bits);
    assert ([w] + tail)[1..] == tail;
  }

  lemma {:induction false} AluReads(kind: AluKind, size: Size, data: DataNumber, ea: Operand, toMemory: bool, w: Word, rest: seq<Word>)
    requires Representable(ea) && Readable(ea, size) && !ea.Immediate?
    requires EncodeEa(ea, size).value.bits < 64 && w & 0x3f == EncodeEa(ea, size).value.bits
    requires (w & 0x0100 != 0 <==> toMemory) && (w >> 9) & 7 == data - 8 && SizeOf((w >> 6) & 3) == Some(size)
    ensures DecodeAlu(w, LineKind(kind), EncodeEa(ea, size).value.extensions + rest)
            == if !toMemory then
                 if kind in {Or, And} && ea.AddressRegister? then None
                 else Some(Read(Instruction(Alu(LineKind(kind)), size, [ea, DataRegister(data)]), rest))
               else if (if LineKind(kind) == Cmp then DataAlterable(ea) else MemoryAlterable(ea)) then
                 Some(Read(Instruction(Alu(if kind == Cmp then Eor else kind), size, [DataRegister(data), ea]), rest))
               else None
  {
    EaRoundTrip(ea, size, rest);
    DataNumberReads(data);
  }

  lemma {:induction false} DataNumberReads(data: DataNumber)
    ensures (data - 8) + 8 == data && data - 8 < 8
  {
  }

  lemma {:induction false} AluWhole(kind: AluKind, size: Size, data: DataNumber, operand: Operand, toMemory: bool, ea: EffectiveAddress, rest: seq<Word>)
    requires Representable(operand) && Readable(operand, size) && !operand.Immediate?
    requires EncodeEa(operand, size) == Ok(ea) && ea.bits < 64
    ensures Decode([AluWord(kind, data - 8, size, toMemory, ea.bits)] + (ea.extensions + rest))
            == if !toMemory then
                 if kind in {Or, And} && operand.AddressRegister? then None
                 else Some(Read(Instruction(Alu(LineKind(kind)), size, [operand, DataRegister(data)]), rest))
               else if (if LineKind(kind) == Cmp then DataAlterable(operand) else MemoryAlterable(operand)) then
                 Some(Read(Instruction(Alu(if kind == Cmp then Eor else kind), size, [DataRegister(data), operand]), rest))
               else None
  {
    DataNumberReads(data);
    AluFields(kind, data - 8, size, toMemory, ea.bits);
    AluStream(kind, data - 8, size, toMemory, ea.bits, ea.extensions + rest);
    AluReads(kind, size, data, operand, toMemory, AluWord(kind, data - 8, size, toMemory, ea.bits), rest);
  }

  lemma {:induction false} AluRejectsAddressBytes(kind: AluKind, data: DataNumber, operand: Operand, ea: EffectiveAddress, rest: seq<Word>)
    requires operand.AddressRegister?
    requires EncodeEa(operand, ByteSize) == Ok(ea) && ea.bits < 64
    ensures Decode([AluWord(kind, data - 8, ByteSize, true, ea.bits)] + (ea.extensions + rest)) == None
  {
    DataNumberReads(data);
    AluFields(kind, data - 8, ByteSize, true, ea.bits);
    AluStream(kind, data - 8, ByteSize, true, ea.bits, ea.extensions + rest);
    AddressByteReads(operand, AluWord(kind, data - 8, ByteSize, true, ea.bits), LineKind(kind), rest);
  }

  /** What the processor makes of the register form, for every pairing of operands the encoder lets through. */
  lemma {:induction false} AluDecodes(kind: AluKind, size: Size, first: Operand, second: Operand, rest: seq<Word>)
    requires LegalAlu(size, kind, first, second)
    ensures var code := EncodeAlu(Instruction(Alu(kind), size, [first, second]), kind);
      && code.Ok?
      && Decode(code.value + rest)
         == if second.DataRegister? then
              if kind in {Or, And} && first.AddressRegister? then None
              else Some(Read(Instruction(Alu(LineKind(kind)), size, [first, second]), rest))
            else if second.AddressRegister? then None
            else Some(Read(Instruction(Alu(kind), size, [first, second]), rest))
  {
    if second.DataRegister? {
      EaFits(first, size);
      var ea := EncodeEa(first, size).value;
      AluWhole(kind, size, second.data, first, false, ea, rest);
      Regroup(AluWord(kind, second.data - 8, size, false, ea.bits), ea.extensions, [], rest);
    } else {
      EaFits(second, size);
      var ea := EncodeEa(second, size).value;
      if second.AddressRegister? && size == ByteSize {
        AluRejectsAddressBytes(kind, first.data, second, ea, rest);
      } else {
        AluWhole(kind, size, first.data, second, true, ea, rest);
      }
      Regroup(AluWord(kind, first.data - 8, size, true, ea.bits), ea.extensions, [], rest);
    }
  }

  lemma {:induction false} AddressByteReads(operand: Operand, w: Word, kind: AluKind, rest: seq<Word>)
    requires operand.AddressRegister? && w & 0x0100 != 0
    requires EncodeEa(operand, ByteSize).value.bits < 64 && w & 0x3f == EncodeEa(operand, ByteSize).value.bits
    ensures DecodeAlu(w, kind, EncodeEa(operand, ByteSize).value.extensions + rest) == None
  {
    EaRoundTrip(operand, SizeOf((w >> 6) & 3).GetOr(ByteSize), rest);
  }

  /** The register form decodes to the instruction written exactly when
      KeepsItsMeaning holds. */
  lemma {:induction false} AluRoundTripsExactly(kind: AluKind, size: Size, first: Operand, second: Operand, rest: seq<Word>)
    requires LegalAlu(size, kind, first, second)
    ensures var i := Instruction(Alu(kind), size, [first, second]);
      && EncodeAlu(i, kind).Ok?
      && (Decode(EncodeAlu(i, kind).value + rest) == Some(Read(i, rest))
          <==> KeepsItsMeaning(kind, first, second))
  {
    AluDecodes(kind, size, first, second, rest);
  }

  /** EOR between two data registers assembles to CMP. */
  lemma {:induction false} ExclusiveOrBecomesCompare(size: Size, a: DataNumber, b: DataNumber, rest: seq<Word>)
    ensures var i := Instruction(Alu(Eor), size, [DataRegister(a), DataRegister(b)]);
      && EncodeAlu(i, Eor).Ok?
      && Decode(EncodeAlu(i, Eor).value + rest) == Some(Read(i.(operation := Alu(Cmp)), rest))
  {
    AluDecodes(Eor, size, DataRegister(a), DataRegister(b), rest);
  }

  /** Instructions that share the opcode lines of the register forms (section 4
      of the manual). */
  datatype Stranger = Addx | Subx | Cmpm | Abcd | Sbcd | Exg | ExgMixed | Pack | Unpk

  /** Their opcode words: the forms between two address registers, and EXG Dx,Ay. */
  function StrangerWord(stranger: Stranger, size: Size, x: Word, y: Word): Word {
    match stranger
    case Addx => 0xd108 | (x << 9) | (size.Field() << 6) | y
    case Subx => 0x9108 | (x << 9) | (size.Field() << 6) | y
    case Cmpm => 0xb108 | (x << 9) | (size.Field() << 6) | y
    case Abcd => 0xc108 | (x << 9) | y
    case Sbcd => 0x8108 | (x << 9) | y
    case Exg => 0xc148 | (x << 9) | y
    case ExgMixed => 0xc188 | (x << 9) | y
    case Pack => 0x8148 | (x << 9) | y
    case Unpk => 0x8188 | (x << 9) | y
  }

  /** What a data register operated onto an address register becomes. */
  function StrangerOf(kind: AluKind, size: Size): Stranger
    requires kind != Cmp
  {
    match kind
    case Add => Addx
    case Sub => Subx
    case Eor => Cmpm
    case And => (match size case ByteSize => Abcd case WordSize => Exg case LongSize => ExgMixed)
    case Or => (match size case ByteSize => Sbcd case WordSize => Pack case LongSize => Unpk)
  }

  lemma {:induction false} StrangerFields(kind: AluKind, size: Size, x: Word, y: Word)
    requires kind != Cmp && x < 8 && y < 8
    ensures AluWord(kind, x, size, true, 0x08 | y) == StrangerWord(StrangerOf(kind, size), size, x, y)
  {
  }

  /** An operation from a data register to an address register, which does not
      exist, is assembled as the word of another instruction. */
  lemma {:induction false} AddressTargetBecomesStranger(kind: AluKind, size: Size, data: DataNumber, address: AddressNumber)
    requires kind != Cmp
    ensures EncodeAlu(Instruction(Alu(kind), size, [DataRegister(data), AddressRegister(address)]), kind)
            == Ok([StrangerWord(StrangerOf(kind, size), size, data - 8, address)])
  {
    hide AluWord, StrangerWord;
    StrangerFields(kind, size, data - 8, address);
    assert [AluWord(kind, data - 8, size, true, 0x08 | address)] + []
        == [AluWord(kind, data - 8, size, true, 0x08 | address)];
  }

  // MOVEQ, LEA and branches.

  lemma {:induction false} MoveqRoundTrips(value: Long, data: DataNumber, size: Size, rest: seq<Word>)
    requires ExtendByte(Low(value)) == value
    ensures var i := Instruction(Moveq, size, [Immediate(value), DataRegister(data)]);
      EncodeMoveq(i).Ok? && Decode(EncodeMoveq(i).value + rest) == Some(Read(i.(size := LongSize), rest))
  {
    DataNumberReads(data);
    MoveqFields(data - 8, value);
    var w := 0x7000 | ((data - 8) << 9) | (Low(value) & 0xff);
    assert ([w] + rest)[1..] == rest;
  }

  lemma {:induction false} LeaReads(a: Operand, w: Word, n: AddressNumber, rest: seq<Word>)
    requires Representable(a) && Control(a)
    requires EncodeEa(a, LongSize).value.bits < 64 && w & 0x3f == EncodeEa(a, LongSize).value.bits
    requires w & 0x01c0 == 0x01c0 && (w >> 9) & 7 == n
    ensures DecodeMiscellaneous(w, EncodeEa(a, LongSize).value.extensions + rest)
            == Some(Read(Instruction(Lea, LongSize, [a, AddressRegister(n)]), rest))
  {
    EaRoundTrip(a, LongSize, rest);
  }

  lemma {:induction false} LeaWhole(a: Operand, ea: EffectiveAddress, n: AddressNumber, rest: seq<Word>)
    requires Representable(a) && Control(a)
    requires EncodeEa(a, LongSize) == Ok(ea) && ea.bits < 64
    ensures Decode([LeaWord(n, ea.bits)] + (ea.extensions + rest))
            == Some(Read(Instruction(Lea, LongSize, [a, AddressRegister(n)]), rest))
  {
    var w := LeaWord(n, ea.bits);
    LeaFields(n, ea.bits);
    LeaReads(a, w, n, rest);
    assert ([w] + (ea.extensions + rest))[1..] == ea.extensions + rest;
  }

  lemma {:induction false} LeaRoundTrips(a: Operand, n: AddressNumber, size: Size, rest: seq<Word>)
    requires Representable(a) && Control(a)
    ensures var i := Instruction(Lea, size, [a, AddressRegister(n)]);
      EncodeLea(i).Ok? && Decode(EncodeLea(i).value + rest) == Some(Read(i.(size := LongSize), rest))
  {
    EaFits(a, LongSize);
    var ea := EncodeEa(a, LongSize).value;
    LeaWhole(a, ea, n, rest);
    Regroup(LeaWord(n, ea.bits), ea.extensions, [], rest);
  }

  lemma {:induction false} SuffixReads(suffix: Suffix)
    ensures SuffixOf(suffix.Code()) == CanonicalSuffix(suffix)
  {
  }

  /** A branch carries the displacement of its target exactly when that
      displacement fits the form its size selects; the assembler never uses the byte form. */
  lemma {:induction false} BranchRoundTripsExactly(suffix: Suffix, size: Size, target: Long, address: Long, rest: seq<Word>)
    ensures var i := Instruction(Branch(suffix), size, [Absolute(target)]);
      && EncodeBranch(i, suffix, address).Ok?
      && (Decode(EncodeBranch(i, suffix, address).value + rest) == Some(Read(Canonical(i, address), rest))
          <==> BranchReaches(size, target, address))
  {
    BranchFields(suffix);
    SuffixReads(suffix);
    var d := Displacement(target, address);
    if size == LongSize {
      var w := 0x60ff | (suffix.Code() << 8);
      JoinHalves(d);
      BranchLine(w, [High(d), Low(d)] + rest);
      assert ([High(d), Low(d)] + rest)[2..] == rest;
      assert [w, High(d), Low(d)] + rest == [w] + ([High(d), Low(d)] + rest);
    } else {
      var w := 0x6000 | (suffix.Code() << 8);
      BranchLine(w, [Low(d)] + rest);
      assert ([Low(d)] + rest)[1..] == rest;
      assert [w, Low(d)] + rest == [w] + ([Low(d)] + rest);
    }
  }

  lemma {:induction false} BranchLine(w: Word, tail: seq<Word>)
    requires w >> 12 == 6
    ensures Decode([w] + tail) == DecodeBranch(w, tail)
  {
    assert ([w] + tail)[1..] == tail;
  }

  // DBcc, Scc and TRAPcc.

  lemma {:induction false} ConditionalFields(suffix: Suffix, bits: Word)
    requires bits < 64
    ensures var w := ConditionalWord(suffix, bits);
      && w >> 12 == 5 && (w >> 6) & 3 == 3
      && (w >> 8) & 0xf == suffix.Code()
      && w & 0x3f == bits && w & 7 == bits & 7 && (w >> 3) & 7 == bits >> 3
  {
  }

  lemma {:induction false} ConditionCodes(suffix: Suffix)
    requires NamesCondition(suffix)
    ensures suffix.Code() >= 2
  {
  }

  lemma {:induction false} ConditionalLine(w: Word, tail: seq<Word>)
    requires w >> 12 == 5 && (w >> 6) & 3 == 3
    ensures Decode([w] + tail) == DecodeConditional(w, tail)
  {
    assert ([w] + tail)[1..] == tail;
  }

  /** DBcc and TRAPcc as members of the group. */
  lemma {:induction false} GroupWords(suffix: Suffix, n: AddressNumber)
    ensures 0x50c8 | (suffix.Code() << 8) | n == ConditionalWord(suffix, 0x08 | n)
    ensures (0x5000 | (suffix.Code() << 8)) | 0xfc == ConditionalWord(suffix, 0x3c)
    ensures 0x08 | n < 64 && (0x08 | n) >> 3 == 1 && (0x08 | n) & 7 == n
  {
  }

  lemma {:induction false} LoopReads(suffix: Suffix, w: Word, data: DataNumber, word: Word, rest: seq<Word>)
    requires NamesCondition(suffix) && (w >> 3) & 7 == 1 && (w >> 8) & 0xf == suffix.Code() && (w & 7) + 8 == data
    ensures DecodeConditional(w, [word] + rest)
            == Some(Read(Instruction(Dbcc(CanonicalSuffix(suffix)), WordSize, [DataRegister(data), Relative(Extend(word))]), rest))
  {
    ConditionCodes(suffix);
    SuffixReads(suffix);
    hide Extend, SuffixOf;
    assert ([word] + rest)[1..] == rest;
  }

  function LoopWord(suffix: Suffix, data: DataNumber): Word {
    ConditionalWord(suffix, 0x08 | (data - 8))
  }

  lemma {:induction false} LoopCode(suffix: Suffix, size: Size, data: DataNumber, target: Long, address: Long)
    ensures EncodeDbcc(Instruction(Dbcc(suffix), size, [DataRegister(data), Absolute(target)]), suffix, address)
            == Ok([LoopWord(suffix, data), Low(Displacement(target, address))])
  {
    GroupWords(suffix, data - 8);
    hide ConditionalWord, Displacement, Low;
  }

  /** The fields that LoopReads looks at. */
  predicate HasLoopFields(suffix: Suffix, w: Word, data: DataNumber) {
    && w >> 12 == 5 && (w >> 6) & 3 == 3
    && (w >> 3) & 7 == 1 && (w >> 8) & 0xf == suffix.Code() && (w & 7) + 8 == data
  }

  lemma {:induction false} LoopWordFields(suffix: Suffix, data: DataNumber)
    ensures HasLoopFields(suffix, LoopWord(suffix, data), data)
  {
    DataNumberReads(data);
    GroupWords(suffix, data - 8);
    ConditionalFields(suffix, 0x08 | (data - 8));
    hide ConditionalWord;
  }

  lemma {:induction false} LoopStream(suffix: Suffix, w: Word, data: DataNumber, word: Word, rest: seq<Word>)
    requires NamesCondition(suffix) && HasLoopFields(suffix, w, data)
    ensures Decode([w, word] + rest)
            == Some(Read(Instruction(Dbcc(CanonicalSuffix(suffix)), WordSize, [DataRegister(data), Relative(Extend(word))]), rest))
  {
    hide Extend, DecodeConditional, CanonicalSuffix, Decode, NamesCondition;
    ConditionalLine(w, [word] + rest);
    LoopReads(suffix, w, data, word, rest);
    assert [w, word] + rest == [w] + ([word] + rest);
  }

  lemma {:induction false} LoopDisplacement(target: Long, address: Long)
    requires BranchReaches(WordSize, target, address)
    ensures Extend(Low(Displacement(target, address))) == Displacement(target, address)
  {
    hide Displacement, Extend, Low;
  }

  lemma {:induction false} LoopRoundTrips(suffix: Suffix, size: Size, data: DataNumber, target: Long, address: Long, rest: seq<Word>)
    requires NamesCondition(suffix) && BranchReaches(WordSize, target, address)
    ensures RoundTrips(Instruction(Dbcc(suffix), size, [DataRegister(data), Absolute(target)]), address, rest)
  {
    hide LoopWord, HasLoopFields, Displacement, Extend, Low, CanonicalSuffix, Decode, EncodeDbcc, BranchReaches, NamesCondition;
    LoopDisplacement(target, address);
    LoopWordFields(suffix, data);
    LoopCode(suffix, size, data, target, address);
    LoopStream(suffix, LoopWord(suffix, data), data, Low(Displacement(target, address)), rest);
  }

  /** The operands of Scc are told from the other members of the group. */
  lemma {:induction false} AlterableBits(operand: Operand)
    requires Representable(operand) && DataAlterable(operand)
    ensures EncodeEa(operand, ByteSize).Ok?
    ensures var bits := EncodeEa(operand, ByteSize).value.bits;
      bits < 64 && bits >> 3 != 1 && bits != 0x3c
  {
    EaFits(operand, ByteSize);
    EaRoundTrip(operand, ByteSize, []);
  }

  lemma {:induction false} SetReads(suffix: Suffix, w: Word, operand: Operand, rest: seq<Word>)
    requires NamesCondition(suffix) && Representable(operand) && DataAlterable(operand)
    requires EncodeEa(operand, ByteSize).Ok?
    requires var bits := EncodeEa(operand, ByteSize).value.bits;
      w & 0x3f == bits < 64 && bits != 0x3c && (w >> 3) & 7 != 1 && (w >> 8) & 0xf == suffix.Code()
    ensures DecodeConditional(w, EncodeEa(operand, ByteSize).value.extensions + rest)
            == Some(Read(Instruction(Scc(CanonicalSuffix(suffix)), ByteSize, [operand]), rest))
  {
    ConditionCodes(suffix);
    SuffixReads(suffix);
    EaRoundTrip(operand, ByteSize, rest);
    hide SuffixOf, DecodeEa, EncodeEa, CanonicalSuffix;
  }

  /** The fields that SetReads looks at. */
  predicate SetFields(suffix: Suffix, w: Word, bits: Word) {
    && w >> 12 == 5 && (w >> 6) & 3 == 3
    && w & 0x3f == bits < 64 && bits != 0x3c && (w >> 3) & 7 != 1 && (w >> 8) & 0xf == suffix.Code()
  }

  lemma {:induction false} SetWord(suffix: Suffix, bits: Word)
    requires bits < 64 && bits >> 3 != 1 && bits != 0x3c
    ensures SetFields(suffix, ConditionalWord(suffix, bits), bits)
  {
    ConditionalFields(suffix, bits);
    hide ConditionalWord;
  }

  lemma {:induction false} SetCode(suffix: Suffix, size: Size, operand: Operand, ea: EffectiveAddress)
    requires EncodeEa(operand, ByteSize) == Ok(ea)
    ensures EncodeScc(Instruction(Scc(suffix), size, [operand]), suffix) == Ok([ConditionalWord(suffix, ea.bits)] + ea.extensions)
  {
    hide ConditionalWord, EncodeEa;
  }

  lemma {:induction false} SetStream(suffix: Suffix, w: Word, operand: Operand, ea: EffectiveAddress, rest: seq<Word>)
    requires NamesCondition(suffix) && Representable(operand) && DataAlterable(operand)
    requires EncodeEa(operand, ByteSize) == Ok(ea) && SetFields(suffix, w, ea.bits)
    ensures Decode([w] + ea.extensions + rest)
            == Some(Read(Instruction(Scc(CanonicalSuffix(suffix)), ByteSize, [operand]), rest))
  {
    hide Decode, DecodeConditional, EncodeEa, Representable, DataAlterable, CanonicalSuffix, NamesCondition;
    SetReads(suffix, w, operand, rest);
    ConditionalLine(w, ea.extensions + rest);
    assert [w] + ea.extensions + rest == [w] + (ea.extensions + rest);
  }

  lemma {:induction false} SetRoundTrips(suffix: Suffix, size: Size, operand: Operand, address: Long, rest: seq<Word>)
    requires NamesCondition(suffix) && Representable(operand) && DataAlterable(operand)
    ensures RoundTrips(Instruction(Scc(suffix), size, [operand]), address, rest)
  {
    hide ConditionalWord, EncodeEa, CanonicalSuffix, Decode, Representable, DataAlterable, SetFields, EncodeScc, NamesCondition;
    AlterableBits(operand);
    var ea := EncodeEa(operand, ByteSize).value;
    SetWord(suffix, ea.bits);
    SetCode(suffix, size, operand, ea);
    SetStream(suffix, ConditionalWord(suffix, ea.bits), operand, ea, rest);
  }

  lemma {:induction false} TrapRoundTrips(suffix: Suffix, size: Size, address: Long, rest: seq<Word>)
    requires NamesCondition(suffix)
    ensures RoundTrips(Instruction(Trapcc(suffix), size, []), address, rest)
  {
    GroupWords(suffix, 0);
    ConditionalFields(suffix, 0x3c);
    ConditionCodes(suffix);
    SuffixReads(suffix);
    ConditionalLine(ConditionalWord(suffix, 0x3c), rest);
  }

  // MOVEM.

  lemma {:induction false} MovemReads(toRegisters: bool, size: Size, memory: Operand, mask: Word, w: Word, rest: seq<Word>)
    requires LegalMovem(size, toRegisters, memory)
    requires EncodeEa(memory, size).value.bits < 64 && w & 0x3f == EncodeEa(memory, size).value.bits
    requires (w & 0x0400 != 0 <==> toRegisters) && (w & 0x0040 != 0 <==> size == LongSize)
    ensures var list := RegisterList(Movem.ReadMask(mask, (w >> 3) & 7 == 4));
      DecodeMovem(w, mask, EncodeEa(memory, size).value.extensions + rest)
      == Some(Read(Instruction(MoveMultiple, size, if toRegisters then [memory, list] else [list, memory]), rest))
  {
    EaRoundTrip(memory, size, rest);
  }

  lemma {:induction false} PredecrementMode(memory: Operand, size: Size)
    requires memory.Indirect? || memory.Absolute?
    ensures EncodeEa(memory, size).value.bits >> 3 == 4 <==> memory.Indirect? && memory.preDecrement
  {
    if memory.Indirect? {
      FieldParts(4, memory.base);
      FieldParts(3, memory.base);
      FieldParts(6, memory.base);
      FieldParts(5, memory.base);
      FieldParts(2, memory.base);
    }
  }

  lemma {:induction false} MovemWhole(toRegisters: bool, size: Size, memory: Operand, ea: EffectiveAddress, mask: Word, rest: seq<Word>)
    requires LegalMovem(size, toRegisters, memory)
    requires EncodeEa(memory, size) == Ok(ea) && ea.bits < 64
    ensures var list := RegisterList(Movem.ReadMask(mask, ea.bits >> 3 == 4));
      Decode([MovemWord(toRegisters, size, ea.bits)] + ([mask] + (ea.extensions + rest)))
      == Some(Read(Instruction(MoveMultiple, size, if toRegisters then [memory, list] else [list, memory]), rest))
  {
    var w := MovemWord(toRegisters, size, ea.bits);
    MovemFields(toRegisters, size, ea.bits);
    MovemReads(toRegisters, size, memory, mask, w, rest);
    var tail := [mask] + (ea.extensions + rest);
    assert ([w] + tail)[1..] == tail;
    assert tail[1..] == ea.extensions + rest;
  }

  lemma {:induction false} MovemOperands(toRegisters: bool, list: Operand, memory: Operand)
    requires list.RegisterList? && !memory.RegisterList?
    ensures var operands := if toRegisters then [memory, list] else [list, memory];
      FirstList(operands) == Some(list.registers) && FirstMemory(operands) == Some(memory)
  {
    var operands := if toRegisters then [memory, list] else [list, memory];
    assert operands[1..][0] == operands[1];
  }

  lemma {:induction false} MovemEncodes(toRegisters: bool, size: Size, list: Operand, memory: Operand, ea: EffectiveAddress)
    requires list.RegisterList? && !memory.RegisterList? && EncodeEa(memory, size) == Ok(ea)
    ensures EncodeMovem(Instruction(MoveMultiple, size, if toRegisters then [memory, list] else [list, memory]))
            == Ok([MovemWord(toRegisters, size, ea.bits), Movem.Mask(list.registers, ea.bits >> 3 == 4)] + ea.extensions)
  {
    MovemOperands(toRegisters, list, memory);
  }

  lemma {:induction false} MaskReads(list: Operand, memory: Operand, size: Size)
    requires list.RegisterList? && (memory.Indirect? || memory.Absolute?)
    ensures var predecrement := EncodeEa(memory, size).value.bits >> 3 == 4;
      RegisterList(Movem.ReadMask(Movem.Mask(list.registers, predecrement), predecrement)) == Masked(list, memory)
  {
    PredecrementMode(memory, size);
  }

  lemma {:induction false} MovemRoundTrips(toRegisters: bool, size: Size, list: Operand, memory: Operand, rest: seq<Word>)
    requires list.RegisterList? && LegalMovem(size, toRegisters, memory)
    ensures var i := Instruction(MoveMultiple, size, if toRegisters then [memory, list] else [list, memory]);
      && EncodeMovem(i).Ok?
      && Decode(EncodeMovem(i).value + rest)
         == Some(Read(i.(operands := if toRegisters then [memory, Masked(list, memory)] else [Masked(list, memory), memory]), rest))
  {
    EaFits(memory, size);
    var ea := EncodeEa(memory, size).value;
    MaskReads(list, memory, size);
    MovemEncodes(toRegisters, size, list, memory, ea);
    var w, mask := MovemWord(toRegisters, size, ea.bits), Movem.Mask(list.registers, ea.bits >> 3 == 4);
    MovemWhole(toRegisters, size, memory, ea, mask, rest);
    MovemGroups(w, mask, ea.extensions, rest);
  }

  lemma {:induction false} MovemGroups(w: Word, mask: Word, extensions: seq<Word>, rest: seq<Word>)
    ensures [w, mask] + extensions + rest == [w] + ([mask] + (extensions + rest))
  {
  }

  // --- The main results ------------------------------------------------------------------------

  lemma {:induction false} MoveCase(i: Instruction, address: Long, rest: seq<Word>)
    requires (i.operation.Move? || i.operation.Movea?) && Legal(i, address)
    ensures RoundTrips(i, address, rest)
  {
    assert i.operands == [i.operands[0], i.operands[1]];
    MoveRoundTrips(i.size, i.operands[0], i.operands[1], rest);
  }

  lemma {:induction false} QuickCase(i: Instruction, address: Long, rest: seq<Word>)
    requires (i.operation.Quick? || i.operation.Moveq?) && Legal(i, address)
    ensures RoundTrips(i, address, rest)
  {
    assert i.operands == [i.operands[0], i.operands[1]];
    if i.operation.Moveq? {
      MoveqRoundTrips(i.operands[0].value, i.operands[1].data, i.size, rest);
    } else {
      QuickRoundTrips(i.operation.subtract, i.size, i.operands[0].value, i.operands[1], rest);
    }
  }

  lemma {:induction false} AluCase(i: Instruction, address: Long, rest: seq<Word>)
    requires (i.operation.Alu? || i.operation.AluImmediate?) && Legal(i, address)
    ensures RoundTrips(i, address, rest)
  {
    assert i.operands == [i.operands[0], i.operands[1]];
    if i.operands[0].Immediate? {
      ImmediateRoundTrips(i.operation.kind, i.size, i.operands[0].value, i.operands[1], rest);
    } else {
      AluRoundTripsExactly(i.operation.kind, i.size, i.operands[0], i.operands[1], rest);
    }
  }

  lemma {:induction false} LeaCase(i: Instruction, address: Long, rest: seq<Word>)
    requires i.operation.Lea? && Legal(i, address)
    ensures RoundTrips(i, address, rest)
  {
    assert i.operands == [i.operands[0], i.operands[1]];
    LeaRoundTrips(i.operands[0], i.operands[1].address, i.size, rest);
  }

  lemma {:induction false} BranchCase(i: Instruction, address: Long, rest: seq<Word>)
    requires i.operation.Branch? && Legal(i, address)
    ensures RoundTrips(i, address, rest)
  {
    assert i.operands == [i.operands[0]];
    BranchRoundTripsExactly(i.operation.suffix, i.size, i.operands[0].value, address, rest);
  }

  lemma {:induction false} MovemCase(i: Instruction, address: Long, rest: seq<Word>)
    requires i.operation.MoveMultiple? && Legal(i, address)
    ensures RoundTrips(i, address, rest)
  {
    assert i.operands == [i.operands[0], i.operands[1]];
    if i.operands[0].RegisterList? {
      MovemRoundTrips(false, i.size, i.operands[0], i.operands[1], rest);
    } else {
      MovemRoundTrips(true, i.size, i.operands[1], i.operands[0], rest);
    }
  }

  lemma {:induction false} ConditionalCase(i: Instruction, address: Long, rest: seq<Word>)
    requires (i.operation.Dbcc? || i.operation.Scc? || i.operation.Trapcc?) && Legal(i, address)
    ensures RoundTrips(i, address, rest)
  {
    match i.operation {
      case Dbcc(suffix) =>
        assert i.operands == [i.operands[0], i.operands[1]];
        LoopRoundTrips(suffix, i.size, i.operands[0].data, i.operands[1].value, address, rest);
      case Scc(suffix) =>
        assert i.operands == [i.operands[0]];
        SetRoundTrips(suffix, i.size, i.operands[0], address, rest);
      case Trapcc(suffix) => TrapRoundTrips(suffix, i.size, address, rest);
    }
  }

  /** Every legal instruction decodes to its canonical form and leaves exactly
      the words that follow it. */
  lemma {:induction false} RoundTrip(i: Instruction, address: Long, rest: seq<Word>)
    requires Legal(i, address)
    ensures RoundTrips(i, address, rest)
  {
    match i.operation
    case Moveq => QuickCase(i, address, rest);
    case Move => MoveCase(i, address, rest);
    case Movea => MoveCase(i, address, rest);
    case Quick(_) => QuickCase(i, address, rest);
    case AluImmediate(_) => AluCase(i, address, rest);
    case Alu(_) => AluCase(i, address, rest);
    case Branch(_) => BranchCase(i, address, rest);
    case Lea => LeaCase(i, address, rest);
    case MoveMultiple => MovemCase(i, address, rest);
    case Dbcc(_) => ConditionalCase(i, address, rest);
    case Scc(_) => ConditionalCase(i, address, rest);
    case Trapcc(_) => ConditionalCase(i, address, rest);
  }

  /** The address after some words. */
  function After(address: Long, words: seq<Word>): Long
    decreases |words|
  {
    if words == [] then address else After(address + 2, words[1..])
  }

  function EncodeAll(program: seq<Instruction>, address: Long): Result<seq<Word>> {
    if program == [] then Ok([])
    else
      var first :- Encode(program[0], address);
      var others :- EncodeAll(program[1..], After(address, first));
      Ok(first + others)
  }

  predicate AllLegal(program: seq<Instruction>, address: Long) {
    program == [] ||
    (&& Legal(program[0], address)
     && Encode(program[0], address).Ok?
     && AllLegal(program[1..], After(address, Encode(program[0], address).value)))
  }

  /** Each instruction in canonical form at the address where its code begins. */
  function AllCanonical(program: seq<Instruction>, address: Long): seq<Instruction>
    requires AllLegal(program, address)
  {
    if program == [] then []
    else
      [Canonical(program[0], address)]
      + AllCanonical(program[1..], After(address, Encode(program[0], address).value))
  }

  /** Reads `count` instructions with a given reader; the rest of the words is left over. */
  function ReadMany(reader: seq<Word> -> Option<Read<Instruction>>, words: seq<Word>, count: nat): Option<Read<seq<Instruction>>>
    decreases count
  {
    if count == 0 then Some(Read([], words))
    else
      match reader(words)
      case None => None
      case Some(Read(first, rest)) =>
        match ReadMany(reader, rest, count - 1)
        case None => None
        case Some(Read(others, rest')) => Some(Read([first] + others, rest'))
  }

  /** Disassembling the code of a list of legal instructions gives the list
      back, and uses up exactly its words. */
  lemma {:induction false} StreamRoundTrip(program: seq<Instruction>, address: Long, rest: seq<Word>)
    requires AllLegal(program, address)
    ensures EncodeAll(program, address).Ok?
    ensures ReadMany(Decode, EncodeAll(program, address).value + rest, |program|)
            == Some(Read(AllCanonical(program, address), rest))
  {
    if program == [] {
      assert [] + rest == rest;
    } else {
      var first := Encode(program[0], address).value;
      StreamRoundTrip(program[1..], After(address, first), rest);
      var others := EncodeAll(program[1..], After(address, first)).value;
      RoundTrip(program[0], address, others + rest);
      assert first + others + rest == first + (others + rest);
    }
  }

  // --- Encodings that do not say what was written --------------------------------------------------

  /** The condition section 3.19 of the manual gives a DBcc suffix: DBRA never
      finds its condition true, so that it always decrements and branches. */
  function LoopCondition(suffix: Suffix): Word {
    if suffix == RA then 1 else suffix.Code()
  }

  /** DBcc keeps its register and displacement, and tests the condition it
      names if and only if it is not DBRA, which is assembled to test "true". */
  lemma {:induction false} LoopConditionExactly(suffix: Suffix, size: Size, data: DataNumber, target: Long, address: Long)
    ensures var code := EncodeDbcc(Instruction(Dbcc(suffix), size, [DataRegister(data), Absolute(target)]), suffix, address);
      && code.Ok? && |code.value| == 2
      && code.value[0] & 0xf0f8 == 0x50c8
      && code.value[0] & 7 == data - 8
      && code.value[1] == Low(Displacement(target, address))
      && ((code.value[0] >> 8) & 0xf == LoopCondition(suffix) <==> suffix != RA)
  {
    DataNumberReads(data);
    LoopFields(suffix, data - 8);
  }

  lemma {:induction false} LoopFields(suffix: Suffix, n: AddressNumber)
    ensures var w := 0x50c8 | (suffix.Code() << 8) | n;
      w & 0xf0f8 == 0x50c8 && w & 7 == n && (w >> 8) & 0xf == suffix.Code()
  {
  }

  /** How many operand words follow a TRAPcc opcode, by its low three bits. */
  function TrapOperandWords(opcode: Word): nat {
    if opcode & 7 == 2 then 1 else if opcode & 7 == 3 then 2 else 0
  }

  /** TRAPcc is followed by as many words as its opcode announces if and only
      if it has no operand: the word and long forms are interchanged. */
  lemma {:induction false} TrapOperandExactly(i: Instruction, suffix: Suffix)
    ensures var code := EncodeTrapcc(i, suffix);
      && code[0] & 0xf0f8 == 0x50f8
      && (|code| - 1 == TrapOperandWords(code[0]) <==> i.operands == [])
  {
    TrapFields(suffix, 0xfa);
    TrapFields(suffix, 0xfb);
    TrapFields(suffix, 0xfc);
  }

  lemma {:induction false} TrapFields(suffix: Suffix, low: Word)
    requires low == 0xfa || low == 0xfb || low == 0xfc
    ensures var w := (0x5000 | (suffix.Code() << 8)) | low;
      w & 0xf0f8 == 0x50f8 && w & 7 == low & 7
  {
  }

  // --- The memory comparison sequence -----------------------------------------------------------------

  const SAVE_D7 := Instruction(MoveMultiple, LongSize, [RegisterList([15]), Indirect(7, 0, true, false, None, false)])
  const RESTORE_D7 := Instruction(MoveMultiple, LongSize, [Indirect(7, 0, false, true, None, false), RegisterList([15])])

  function MoveToD7(operand: Operand, size: Size): Instruction {
    Instruction(Move, size, [operand, DataRegister(15)])
  }

  function CompareWithD7(operand: Operand, size: Size): Instruction {
    Instruction(Alu(Cmp), size, [operand, DataRegister(15)])
  }

  lemma {:induction false} MaskOfD7()
    ensures Movem.Mask([15], true) == 0x0100 && Movem.Mask([15], false) == 0x0080
  {
    var list: seq<RegisterNumber> := [15];
    assert list[..0] == [];
    assert Movem.Mask(list[..0], true) == 0 && Movem.Mask(list[..0], false) == 0;
  }

  lemma {:induction false} SavingCode()
    ensures EncodeMovem(SAVE_D7) == Ok([0x48e7, 0x0100])
    ensures EncodeMovem(RESTORE_D7) == Ok([0x4cdf, 0x0080])
  {
    var list := RegisterList([15]);
    MaskOfD7();
    MovemEncodes(false, LongSize, list, SAVE_D7.operands[1], EffectiveAddress(0x27, []));
    MovemEncodes(true, LongSize, list, RESTORE_D7.operands[0], EffectiveAddress(0x1f, []));
    assert MovemWord(false, LongSize, 0x27) == 0x48e7 && MovemWord(true, LongSize, 0x1f) == 0x4cdf;
    assert [0x48e7 as Word, 0x0100] + [] == [0x48e7, 0x0100] && [0x4cdf as Word, 0x0080] + [] == [0x4cdf, 0x0080];
  }

  function MoveToD7Word(size: Size, bits: Word): Word {
    (match size case ByteSize => 0x1e00 case LongSize => 0x2e00 case WordSize => 0x3e00) | bits
  }

  lemma {:induction false} MoveToD7Code(first: Operand, size: Size)
    requires EncodeEa(first, size).Ok?
    ensures var ea := EncodeEa(first, size).value;
      Encode(MoveToD7(first, size), 0) == Ok([MoveToD7Word(size, ea.bits)] + ea.extensions)
  {
    var ea := EncodeEa(first, size).value;
    assert MoveWord(size, ea.bits, 7) == MoveToD7Word(size, ea.bits);
    assert [MoveToD7Word(size, ea.bits)] + ea.extensions + [] == [MoveToD7Word(size, ea.bits)] + ea.extensions;
  }

  lemma {:induction false} CompareWithD7Code(second: Operand, size: Size)
    requires EncodeEa(second, size).Ok? && !second.Immediate?
    ensures var ea := EncodeEa(second, size).value;
      Encode(CompareWithD7(second, size), 0) == Ok([SizedWord(0xbe00, size, ea.bits)] + ea.extensions)
  {
    var ea := EncodeEa(second, size).value;
    assert AluWord(Cmp, 7, size, false, ea.bits) == SizedWord(0xbe00, size, ea.bits);
  }

  /** The code of four instructions that do not depend on their addresses. */
  function FourCodes(a: Instruction, b: Instruction, c: Instruction, d: Instruction): Result<seq<Word>> {
    var first :- Encode(a, 0);
    var second :- Encode(b, 0);
    var third :- Encode(c, 0);
    var fourth :- Encode(d, 0);
    Ok(first + second + third + fourth)
  }

  /** CMP between two operands outside the data registers is assembled as the
      code of four instructions in a row, which keep D7 on the stack meanwhile. */
  lemma {:induction false} MemoryCompareIsFourInstructions(first: Operand, second: Operand, size: Size)
    requires EncodeEa(first, size).Ok? && EncodeEa(second, size).Ok?
    requires !first.Immediate? && !second.DataRegister? && !second.Immediate?
    ensures EncodeAlu(Instruction(Alu(Cmp), size, [first, second]), Cmp)
            == FourCodes(SAVE_D7, MoveToD7(first, size), CompareWithD7(second, size), RESTORE_D7)
  {
    SavingCode();
    MoveToD7Code(first, size);
    CompareWithD7Code(second, size);
    var source, destination := EncodeEa(first, size).value, EncodeEa(second, size).value;
    FourPieces([0x48e7, 0x0100], MoveToD7Word(size, source.bits), source.extensions,
               SizedWord(0xbe00, size, destination.bits), destination.extensions, [0x4cdf, 0x0080]);
  }

  lemma {:induction false} FourPieces(a: seq<Word>, b: Word, c: seq<Word>, d: Word, e: seq<Word>, f: seq<Word>)
    ensures a + [b] + c + [d] + e + f == a + ([b] + c) + ([d] + e) + f
  {
  }
}
