/** Instruction words for resolved instructions: the MC68000 core of the source encoder. */
module Encoder {
  import opened Words
  import opened Outcomes
  import opened Operands
  import Movem

  /** Condition suffixes of the mnemonics, with the assembler's table of codes. */
  datatype Suffix =
    | RA | SR | HI | LS | CC | HS | CS | LO | NE | EQ | VC | VS | PL | MI | GE | LT | GT | LE
  {
    function Code(): Word {
      match this
      case RA => 0 case SR => 1 case HI => 2 case LS => 3
      case CC => 4 case HS => 4 case CS => 5 case LO => 5
      case NE => 6 case EQ => 7 case VC => 8 case VS => 9
      case PL => 10 case MI => 11 case GE => 12 case LT => 13
      case GT => 14 case LE => 15
    }
  }

  datatype AluKind = Or | Sub | Cmp | Eor | And | Add {
    /** The opcode line of the register form. */
    function Line(): Word {
      match this
      case Or => 0x8000
      case Sub => 0x9000
      case Cmp => 0xb000
      case Eor => 0xb000
      case And => 0xc000
      case Add => 0xd000
    }

    /** The opcode of the immediate form. */
    function ImmediateBase(): Word {
      match this
      case Or => 0x0000
      case And => 0x0200
      case Sub => 0x0400
      case Add => 0x0600
      case Eor => 0x0a00
      case Cmp => 0x0c00
    }
  }

  datatype Operation =
    | Move
    | Movea
    | Moveq
    | Quick(subtract: bool)
    | AluImmediate(kind: AluKind)
    | Alu(kind: AluKind)
    | Branch(suffix: Suffix)
    | Dbcc(suffix: Suffix)
    | Scc(suffix: Suffix)
    | Trapcc(suffix: Suffix)
    | MoveMultiple
    | Lea

  datatype Instruction = Instruction(operation: Operation, size: Size, operands: seq<Operand>)

  // --- Operand checks the encoder makes --------------------------------------------

  function OperandAt(i: Instruction, k: nat): Result<Operand> {
    if k < |i.operands| then Ok(i.operands[k]) else Err("missing operand")
  }

  /** The value field every parsed operand has, whatever its type. */
  function Value(operand: Operand): Long {
    match operand
    case DataRegister(n) => n as bv32
    case AddressRegister(n) => n as bv32
    case Indirect(n, _, _, _, _, _) => n as bv32
    case Immediate(v) => v
    case Absolute(v) => v
    case Relative(d) => d
    case RegisterList(_) => 0
  }

  function DataNumberOf(operand: Operand): Result<AddressNumber> {
    if operand.DataRegister? then Ok(operand.data - 8) else Err("expected a data register")
  }

  function AddressNumberOf(operand: Operand): Result<AddressNumber> {
    if operand.AddressRegister? then Ok(operand.address) else Err("expected an address register")
  }

  // --- Opcode words -------------------------------------------------------------------

  function MoveBase(size: Size): Word {
    match size
    case ByteSize => 0x1000
    case LongSize => 0x2000
    case WordSize => 0x3000
  }

  /** MOVE puts the destination's register above its mode. */
  function MoveWord(size: Size, source: Word, destination: Word): Word {
    MoveBase(size) | ((destination & 7) << 9) | (((destination >> 3) & 7) << 6) | source
  }

  function SizedWord(base: Word, size: Size, bits: Word): Word {
    base | (size.Field() << 6) | bits
  }

  function QuickWord(subtract: bool, size: Size, quick: Word, bits: Word): Word {
    0x5000 | (quick << 9) | (if subtract then 0x0100 else 0) | (size.Field() << 6) | bits
  }

  function AluWord(kind: AluKind, register: Word, size: Size, toMemory: bool, bits: Word): Word {
    kind.Line() | (register << 9) | ((size.Field() + if toMemory then 4 else 0) << 6) | bits
  }

  function MovemWord(toRegisters: bool, size: Size, bits: Word): Word {
    0x4880 | (if toRegisters then 0x0400 else 0) | (if size == LongSize then 0x0040 else 0) | bits
  }

  function LeaWord(register: Word, bits: Word): Word {
    0x41c0 | (register << 9) | bits
  }

  // --- Instructions ----------------------------------------------------------------------

  /** The words of an instruction whose first byte lies at `address`. */
  function Encode(i: Instruction, address: Long): Result<seq<Word>> {
    match i.operation
    case Moveq => EncodeMoveq(i)
    case Trapcc(suffix) => Ok(EncodeTrapcc(i, suffix))
    case Branch(suffix) => EncodeBranch(i, suffix, address)
    case Dbcc(suffix) => EncodeDbcc(i, suffix, address)
    case Scc(suffix) => EncodeScc(i, suffix)
    case Move => EncodeMove(i)
    case Movea => EncodeMove(i)
    case AluImmediate(kind) => EncodeAluImmediate(i, kind)
    case Quick(subtract) => EncodeQuick(i, subtract)
    case Alu(kind) => EncodeAlu(i, kind)
    case Lea => EncodeLea(i)
    case MoveMultiple => EncodeMovem(i)
  }

  function EncodeMoveq(i: Instruction): Result<seq<Word>> {
    var target :- OperandAt(i, 1);
    var register :- DataNumberOf(target);
    Ok([0x7000 | (register << 9) | (Low(Value(i.operands[0])) & 0xff)])
  }

  /** The operand width is handed to ImmediateWords in bytes, where only the
      size code 2 means a long: two bytes therefore yield two words, and four
      bytes one. */
  function EncodeTrapcc(i: Instruction, suffix: Suffix): seq<Word> {
    var opcode := 0x5000 | (suffix.Code() << 8);
    if i.operands == [] then [opcode | 0xfc]
    else
      var value := Value(i.operands[0]);
      if i.size == LongSize then [opcode | 0xfb] + ImmediateWords(value, WordSize)
      else [opcode | 0xfa] + ImmediateWords(value, LongSize)
  }

  function Displacement(target: Long, address: Long): Long {
    target - (address + 2)
  }

  function EncodeBranch(i: Instruction, suffix: Suffix, address: Long): Result<seq<Word>> {
    var operand :- OperandAt(i, 0);
    var displacement := Displacement(Value(operand), address);
    if i.size == LongSize then
      Ok([0x60ff | (suffix.Code() << 8), High(displacement), Low(displacement)])
    else Ok([0x6000 | (suffix.Code() << 8), Low(displacement)])
  }

  function EncodeDbcc(i: Instruction, suffix: Suffix, address: Long): Result<seq<Word>> {
    var target :- OperandAt(i, 1);
    var register :- DataNumberOf(i.operands[0]);
    Ok([0x50c8 | (suffix.Code() << 8) | register, Low(Displacement(Value(target), address))])
  }

  /** One opcode group for Scc, DBcc and TRAPcc, told apart by the address field. */
  function ConditionalWord(suffix: Suffix, bits: Word): Word {
    0x50c0 | (suffix.Code() << 8) | bits
  }

  function EncodeScc(i: Instruction, suffix: Suffix): Result<seq<Word>> {
    var operand :- OperandAt(i, 0);
    var destination :- EncodeEa(operand, ByteSize);
    Ok([ConditionalWord(suffix, destination.bits)] + destination.extensions)
  }

  function EncodeMove(i: Instruction): Result<seq<Word>> {
    var second :- OperandAt(i, 1);
    var source :- EncodeEa(i.operands[0], i.size);
    var destination :- EncodeEa(second, i.size);
    Ok([MoveWord(i.size, source.bits, destination.bits)] + source.extensions + destination.extensions)
  }

  function EncodeAluImmediate(i: Instruction, kind: AluKind): Result<seq<Word>> {
    var second :- OperandAt(i, 1);
    var destination :- EncodeEa(second, i.size);
    Ok([SizedWord(kind.ImmediateBase(), i.size, destination.bits)]
       + ImmediateWords(Value(i.operands[0]), i.size) + destination.extensions)
  }

  function EncodeQuick(i: Instruction, subtract: bool): Result<seq<Word>> {
    var second :- OperandAt(i, 1);
    var destination :- EncodeEa(second, i.size);
    Ok([QuickWord(subtract, i.size, Low(Value(i.operands[0])) & 7, destination.bits)]
       + destination.extensions)
  }

  /** An immediate source takes the immediate form; CMP with a destination that
      is not a data register becomes the four-instruction sequence; otherwise
      one side must be a data register, and a data source wins the memory form. */
  function EncodeAlu(i: Instruction, kind: AluKind): Result<seq<Word>> {
    var second :- OperandAt(i, 1);
    var first := i.operands[0];
    if first.Immediate? then EncodeAluImmediate(i, kind)
    else if kind == Cmp && !second.DataRegister? then EncodeMemoryCompare(first, second, i.size)
    else
      var toMemory := first.DataRegister? && !second.DataRegister?;
      var register :- DataNumberOf(if toMemory then first else second);
      var ea :- EncodeEa(if toMemory then second else first, i.size);
      Ok([AluWord(kind, register, i.size, toMemory, ea.bits)] + ea.extensions)
  }

  /** MOVEM.L D7,-(A7); MOVE source,D7; CMP destination,D7; MOVEM.L (A7)+,D7. */
  function EncodeMemoryCompare(first: Operand, second: Operand, size: Size): Result<seq<Word>> {
    var source :- EncodeEa(first, size);
    var destination :- EncodeEa(second, size);
    Ok([0x48e7, 0x0100]
       + [(match size case ByteSize => 0x1e00 case LongSize => 0x2e00 case WordSize => 0x3e00) | source.bits]
       + source.extensions
       + [SizedWord(0xbe00, size, destination.bits)] + destination.extensions
       + [0x4cdf, 0x0080])
  }

  function EncodeLea(i: Instruction): Result<seq<Word>> {
    var first :- OperandAt(i, 0);
    var source :- EncodeEa(first, LongSize);
    var second :- OperandAt(i, 1);
    var register :- AddressNumberOf(second);
    Ok([LeaWord(register, source.bits)] + source.extensions)
  }

  function FirstList(operands: seq<Operand>): Option<seq<RegisterNumber>> {
    if operands == [] then None
    else if operands[0].RegisterList? then Some(operands[0].registers)
    else FirstList(operands[1..])
  }

  function FirstMemory(operands: seq<Operand>): Option<Operand> {
    if operands == [] then None
    else if !operands[0].RegisterList? then Some(operands[0])
    else FirstMemory(operands[1..])
  }

  function EncodeMovem(i: Instruction): Result<seq<Word>> {
    var list, memory := FirstList(i.operands), FirstMemory(i.operands);
    if list.None? || memory.None? then Err("MOVEM requires a register list and memory")
    else
      var ea :- EncodeEa(memory.value, i.size);
      var mask := Movem.Mask(list.value, ea.bits >> 3 == 4);
      Ok([MovemWord(!i.operands[0].RegisterList?, i.size, ea.bits), mask] + ea.extensions)
  }
}
