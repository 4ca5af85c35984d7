/** What the four instructions do to which the assembler expands a CMP between
    two operands outside the data registers (sections 3 and 4 of the M68000
    Family Programmer's Reference Manual: MOVEM, MOVE, CMP). */
module CompareSequence {
  import opened Words
  import opened Outcomes
  import opened Operands

  datatype Flags = Flags(n: bool, z: bool, v: bool, c: bool)

  /** Registers by operand number: A0-A7 are 0-7, D0-D7 are 8-15. */
  datatype Machine = Machine(registers: RegisterNumber -> Long, memory: Long -> bv8, flags: Flags)

  const A7: RegisterNumber := 7
  const D7: RegisterNumber := 15

  // --- Memory and operands --------------------------------------------------------

  function ReadMemory(memory: Long -> bv8, at: Long, size: Size): Long {
    match size
    case ByteSize => memory(at) as bv32
    case WordSize => ((memory(at) as bv32) << 8) | (memory(at + 1) as bv32)
    case LongSize =>
      ((memory(at) as bv32) << 24) | ((memory(at + 1) as bv32) << 16)
      | ((memory(at + 2) as bv32) << 8) | (memory(at + 3) as bv32)
  }

  function Byte3(value: Long): bv8 { (value >> 24) as bv8 }
  function Byte2(value: Long): bv8 { ((value >> 16) & 0xff) as bv8 }
  function Byte1(value: Long): bv8 { ((value >> 8) & 0xff) as bv8 }
  function Byte0(value: Long): bv8 { (value & 0xff) as bv8 }

  function WriteByte(memory: Long -> bv8, at: Long, value: bv8): Long -> bv8 {
    (x: Long) => if x == at then value else memory(x)
  }

  function WriteLong(memory: Long -> bv8, at: Long, value: Long): Long -> bv8 {
    WriteByte(WriteByte(WriteByte(WriteByte(memory, at, Byte3(value)), at + 1, Byte2(value)), at + 2, Byte1(value)),
              at + 3, Byte0(value))
  }

  /** The stack pointer stays even under byte steps. */
  function StepSize(n: AddressNumber, size: Size): Long {
    match size
    case ByteSize => if n == 7 then 2 else 1
    case WordSize => 2
    case LongSize => 4
  }

  function Scaled(index: Index, value: Long): Long {
    (if index.long then value else Extend(Low(value))) << index.scale.Log2()
  }

  function IndexValue(m: Machine, operand: Operand): Long
    requires operand.Indirect?
  {
    if operand.index.Some? then Scaled(operand.index.value, m.registers(operand.index.value.register)) else 0
  }

  function Sum(base: Long, offset: Long, index: Long): Long {
    base + offset + index
  }

  function Up(at: Long, step: Long): Long {
    at + step
  }

  function Down(at: Long, step: Long): Long {
    at - step
  }

  /** Where an indirect operand points, given its base register and index value. */
  function Place(operand: Operand, base: Long, index: Long, size: Size): Long
    requires operand.Indirect?
  {
    if operand.preDecrement then base - StepSize(operand.base, size)
    else if operand.postIncrement then base
    else Sum(base, operand.offset, index)
  }

  function Base(m: Machine, operand: Operand, pc: Long): Long
    requires operand.Indirect?
  {
    if operand.pcRelative then pc else m.registers(operand.base)
  }

  /** The address of a memory operand; `pc` is the address of its extension word. */
  function AddressOf(m: Machine, operand: Operand, size: Size, pc: Long): Long
    requires operand.Indirect? || operand.Absolute?
  {
    if operand.Absolute? then operand.value
    else
      Place(operand, Base(m, operand, pc), IndexValue(m, operand), size)
  }

  function SetRegister(m: Machine, r: RegisterNumber, value: Long): Machine {
    m.(registers := (x: RegisterNumber) => if x == r then value else m.registers(x))
  }

  /** The base register after predecrement or postincrement. */
  function Moved(operand: Operand, base: Long, size: Size): Long
    requires operand.Indirect?
  {
    if operand.preDecrement then Down(base, StepSize(operand.base, size))
    else Up(base, StepSize(operand.base, size))
  }

  function AfterOperand(m: Machine, operand: Operand, size: Size): Machine {
    if operand.Indirect? && (operand.preDecrement || operand.postIncrement) then
      SetRegister(m, operand.base, Moved(operand, m.registers(operand.base), size))
    else m
  }

  function ValueOf(m: Machine, operand: Operand, size: Size, pc: Long): Long {
    match operand
    case DataRegister(n) => Truncate(m.registers(n), size)
    case AddressRegister(n) => Truncate(m.registers(n), size)
    case Immediate(v) => Truncate(v, size)
    case Relative(_) => 0
    case RegisterList(_) => 0
    case _ => ReadMemory(m.memory, AddressOf(m, operand, size, pc), size)
  }

  // --- The four instructions -------------------------------------------------------

  /** MOVEM.L D7,-(A7). */
  function SaveD7(m: Machine): Machine {
    var sp := m.registers(A7) - 4;
    SetRegister(m, A7, sp).(memory := WriteLong(m.memory, sp, m.registers(D7)))
  }

  /** MOVEM.L (A7)+,D7. */
  function RestoreD7(m: Machine): Machine {
    var sp := m.registers(A7);
    SetRegister(SetRegister(m, A7, sp + 4), D7, ReadMemory(m.memory, sp, LongSize))
  }

  function SignBit(size: Size): Long {
    match size
    case ByteSize => 0x80
    case WordSize => 0x8000
    case LongSize => 0x8000_0000
  }

  /** Moving to a data register replaces only the operand-sized part. */
  function Merge(previous: Long, value: Long, size: Size): Long {
    match size
    case ByteSize => (previous & 0xffff_ff00) | value
    case WordSize => (previous & 0xffff_0000) | value
    case LongSize => value
  }

  function MoveToD7(m: Machine, operand: Operand, size: Size, pc: Long): Machine {
    var value := ValueOf(m, operand, size, pc);
    var m' := AfterOperand(m, operand, size);
    SetRegister(m', D7, Merge(m'.registers(D7), value, size))
      .(flags := Flags(value & SignBit(size) != 0, value == 0, false, false))
  }

  predicate IsNegative(value: Long, size: Size) {
    value & SignBit(size) != 0
  }

  /** Condition codes of a subtraction from the sign bits of minuend,
      subtrahend and difference (table 3-18 of the manual). */
  function CodesOf(d: bool, s: bool, r: bool, zero: bool): Flags {
    Flags(r, zero, (!s && d && !r) || (s && !d && r), (s && !d) || (r && !d) || (s && r))
  }

  function Difference(minuend: Long, subtrahend: Long, size: Size): Long {
    Truncate(minuend - subtrahend, size)
  }

  function SubtractFlags(minuend: Long, subtrahend: Long, size: Size): Flags {
    var difference := Difference(minuend, subtrahend, size);
    CodesOf(IsNegative(minuend, size), IsNegative(subtrahend, size), IsNegative(difference, size), difference == 0)
  }

  /** CMP subtracts its source from the data register. */
  function CompareWithD7(m: Machine, operand: Operand, size: Size, pc: Long): Machine {
    var value := ValueOf(m, operand, size, pc);
    AfterOperand(m, operand, size)
      .(flags := SubtractFlags(Truncate(m.registers(D7), size), value, size))
  }

  function Expansion(m: Machine, first: Operand, second: Operand, size: Size, pc1: Long, pc2: Long): Machine {
    RestoreD7(CompareWithD7(MoveToD7(SaveD7(m), first, size, pc1), second, size, pc2))
  }

  // --- Conditions a programmer can check -----------------------------------------------

  predicate UsesStackPointer(operand: Operand) {
    match operand
    case AddressRegister(n) => n == A7
    case Indirect(n, _, _, _, index, pc) => (n == A7 && !pc) || (index.Some? && index.value.register == A7)
    case _ => false
  }

  predicate IndexedByD7(operand: Operand) {
    operand.Indirect? && operand.index.Some? && operand.index.value.register == D7
  }

  predicate Inside(x: Long, at: Long, size: Size) {
    || x == at
    || (size != ByteSize && x == at + 1)
    || (size == LongSize && (x == at + 2 || x == at + 3))
  }

  /** Whether `x` is one of the four bytes below a stack pointer. */
  predicate InSlot(sp: Long, x: Long) {
    Inside(x, sp - 4, LongSize)
  }

  /** The operand's bytes and the slot have nothing in common. */
  ghost predicate AvoidsSlot(m: Machine, operand: Operand, size: Size, pc: Long, sp: Long) {
    (operand.Indirect? || operand.Absolute?) ==>
      forall x: Long :: Inside(x, AddressOf(m, operand, size, pc), size) ==> !InSlot(sp, x)
  }

  predicate Comparable(operand: Operand) {
    !operand.Relative? && !operand.RegisterList?
    && (operand.Indirect? && (operand.preDecrement || operand.postIncrement) ==> !operand.pcRelative)
  }

  // --- Proof --------------------------------------------------------------------------------

  lemma {:induction false} StackReturns(sp: Long)
    ensures (sp - 4) + 4 == sp
  {
  }

  lemma {:induction false} SavedLongReads(memory: Long -> bv8, at: Long, value: Long)
    ensures ReadMemory(WriteLong(memory, at, value), at, LongSize) == value
  {
    LongFromBytes(value);
    Distinct(at);
  }

  lemma {:induction false} Distinct(at: Long)
    ensures at != at + 1 && at != at + 2 && at != at + 3
    ensures at + 1 != at + 2 && at + 1 != at + 3 && at + 2 != at + 3
  {
  }

  lemma {:induction false} LongFromBytes(value: Long)
    ensures ((Byte3(value) as bv32) << 24) | ((Byte2(value) as bv32) << 16)
            | ((Byte1(value) as bv32) << 8) | (Byte0(value) as bv32) == value
  {
  }

  /** Two machines that differ only in A7, in D7 and inside the slot. */
  ghost predicate Alike(m: Machine, m': Machine, sp: Long) {
    && (forall r: RegisterNumber :: r != A7 && r != D7 ==> m'.registers(r) == m.registers(r))
    && (forall x: Long :: !InSlot(sp, x) ==> m'.memory(x) == m.memory(x))
  }

  /** An operand that avoids A7, the slot and (unless D7 agrees) D7 means the same in both. */
  lemma {:induction false} SameParts(m: Machine, m': Machine, operand: Operand, pc: Long, sp: Long)
    requires Alike(m, m', sp)
    requires operand.Indirect?
    requires !UsesStackPointer(operand)
    requires m'.registers(D7) == m.registers(D7) || !IndexedByD7(operand)
    ensures Base(m', operand, pc) == Base(m, operand, pc)
    ensures IndexValue(m', operand) == IndexValue(m, operand)
  {
  }

  lemma {:induction false} SameAddress(m: Machine, m': Machine, operand: Operand, size: Size, pc: Long, sp: Long)
    requires Alike(m, m', sp)
    requires operand.Indirect? || operand.Absolute?
    requires !UsesStackPointer(operand)
    requires m'.registers(D7) == m.registers(D7) || !IndexedByD7(operand)
    ensures AddressOf(m', operand, size, pc) == AddressOf(m, operand, size, pc)
  {
    if operand.Indirect? {
      SameParts(m, m', operand, pc, sp);
    }
  }

  lemma {:induction false} SameMemory(m: Machine, m': Machine, at: Long, size: Size, sp: Long)
    requires Alike(m, m', sp)
    requires forall x: Long :: Inside(x, at, size) ==> !InSlot(sp, x)
    ensures ReadMemory(m'.memory, at, size) == ReadMemory(m.memory, at, size)
  {
    assert Inside(at, at, size);
    if size != ByteSize {
      assert Inside(at + 1, at, size);
    }
    if size == LongSize {
      assert Inside(at + 2, at, size) && Inside(at + 3, at, size);
    }
  }

  lemma {:induction false} SameValue(m: Machine, m': Machine, operand: Operand, size: Size, pc: Long, sp: Long)
    requires Alike(m, m', sp)
    requires !UsesStackPointer(operand)
    requires AvoidsSlot(m, operand, size, pc, sp)
    requires m'.registers(D7) == m.registers(D7) || (!IndexedByD7(operand) && !operand.DataRegister?)
    ensures ValueOf(m', operand, size, pc) == ValueOf(m, operand, size, pc)
  {
    match operand
    case Indirect(_, _, _, _, _, _) =>
      SameAddress(m, m', operand, size, pc, sp);
      SameMemory(m, m', AddressOf(m, operand, size, pc), size, sp);
    case Absolute(at) =>
      SameMemory(m, m', at, size, sp);
    case DataRegister(n) =>
      assert m'.registers(n) == m.registers(n);
    case AddressRegister(n) =>
      assert m'.registers(n) == m.registers(n);
    case _ =>
  }

  /** The step of one operand keeps two machines alike and moves neither A7 nor D7. */
  lemma {:induction false} SameStep(m: Machine, m': Machine, operand: Operand, size: Size, sp: Long)
    requires Alike(m, m', sp)
    requires !UsesStackPointer(operand) && Comparable(operand)
    ensures Alike(AfterOperand(m, operand, size), AfterOperand(m', operand, size), sp)
    ensures AfterOperand(m', operand, size).registers(A7) == m'.registers(A7)
    ensures AfterOperand(m', operand, size).registers(D7) == m'.registers(D7)
    ensures AfterOperand(m', operand, size).memory == m'.memory
  {
  }

  lemma {:induction false} WriteLongElsewhere(memory: Long -> bv8, at: Long, value: Long)
    ensures forall x: Long :: !Inside(x, at, LongSize) ==> WriteLong(memory, at, value)(x) == memory(x)
  {
  }

  lemma {:induction false} SaveKeepsAlike(m: Machine)
    ensures var sp := m.registers(A7);
      && Alike(m, SaveD7(m), sp)
      && SaveD7(m).registers(A7) == sp - 4
      && SaveD7(m).registers(D7) == m.registers(D7)
      && ReadMemory(SaveD7(m).memory, sp - 4, LongSize) == m.registers(D7)
  {
    var at := m.registers(A7) - 4;
    SavedLongReads(m.memory, at, m.registers(D7));
    WriteLongElsewhere(m.memory, at, m.registers(D7));
  }

  lemma {:induction false} MergedValue(previous: Long, value: Long, size: Size)
    requires Truncate(value, size) == value
    ensures Truncate(Merge(previous, value, size), size) == value
  {
  }

  lemma {:induction false} ValueIsTruncated(m: Machine, operand: Operand, size: Size, pc: Long)
    requires Comparable(operand)
    ensures Truncate(ValueOf(m, operand, size, pc), size) == ValueOf(m, operand, size, pc)
  {
    match operand
    case DataRegister(n) => TruncatedTwice(m.registers(n), size);
    case AddressRegister(n) => TruncatedTwice(m.registers(n), size);
    case Immediate(v) => TruncatedTwice(v, size);
    case Indirect(_, _, _, _, _, _) => ReadIsTruncated(m.memory, AddressOf(m, operand, size, pc), size);
    case Absolute(at) => ReadIsTruncated(m.memory, at, size);
    case _ =>
  }

  lemma {:induction false} TruncatedTwice(v: Long, size: Size)
    ensures Truncate(Truncate(v, size), size) == Truncate(v, size)
  {
  }

  lemma {:induction false} ReadIsTruncated(memory: Long -> bv8, at: Long, size: Size)
    ensures Truncate(ReadMemory(memory, at, size), size) == ReadMemory(memory, at, size)
  {
  }

  /** After the second instruction D7 holds the first operand's value. */
  lemma {:induction false} MoveLoadsFirst(m: Machine, first: Operand, size: Size, pc: Long)
    requires Comparable(first) && !UsesStackPointer(first)
    requires AvoidsSlot(m, first, size, pc, m.registers(A7))
    ensures var m1, moved := AfterOperand(m, first, size), MoveToD7(SaveD7(m), first, size, pc);
      && Alike(m1, moved, m.registers(A7))
      && moved.registers(A7) == m.registers(A7) - 4
      && moved.memory == SaveD7(m).memory
      && Truncate(moved.registers(D7), size) == ValueOf(m, first, size, pc)
  {
    var sp, saved := m.registers(A7), SaveD7(m);
    SaveKeepsAlike(m);
    SameValue(m, saved, first, size, pc, sp);
    SameStep(m, saved, first, size, sp);
    ValueIsTruncated(m, first, size, pc);
    MergedValue(AfterOperand(saved, first, size).registers(D7), ValueOf(m, first, size, pc), size);
  }

  /** The sequence leaves every register and every byte outside the slot as
      the two operands' own steps leave them, restores D7 and A7, and sets the
      condition codes of first - second. */
  lemma {:induction false} ExpansionCompares(m: Machine, first: Operand, second: Operand, size: Size, pc1: Long, pc2: Long)
    requires Comparable(first) && Comparable(second)
    requires !UsesStackPointer(first) && !UsesStackPointer(second)
    requires !IndexedByD7(second) && !second.DataRegister?
    requires AvoidsSlot(m, first, size, pc1, m.registers(A7))
    requires AvoidsSlot(AfterOperand(m, first, size), second, size, pc2, m.registers(A7))
    ensures var m1 := AfterOperand(m, first, size);
      var m2 := AfterOperand(m1, second, size);
      var end := Expansion(m, first, second, size, pc1, pc2);
      && end.registers(D7) == m.registers(D7)
      && end.registers(A7) == m.registers(A7)
      && Alike(m2, end, m.registers(A7))
      && end.flags == SubtractFlags(ValueOf(m, first, size, pc1), ValueOf(m1, second, size, pc2), size)
  {
    var sp, m1 := m.registers(A7), AfterOperand(m, first, size);
    var moved := MoveToD7(SaveD7(m), first, size, pc1);
    SaveKeepsAlike(m);
    MoveLoadsFirst(m, first, size, pc1);
    SameValue(m1, moved, second, size, pc2, sp);
    SameStep(m1, moved, second, size, sp);
    StackReturns(sp);
  }

  // --- Operands on the stack ------------------------------------------------------------------------

  predicate Pushes(operand: Operand) {
    operand.Indirect? && operand.base == 7 && operand.preDecrement
  }

  predicate Pops(operand: Operand) {
    operand.Indirect? && operand.base == 7 && !operand.preDecrement && operand.postIncrement
  }

  /** What an operand makes of the stack pointer. */
  function Stepped(sp: Long, operand: Operand, size: Size): Long {
    if Pushes(operand) then Down(sp, StepSize(7, size))
    else if Pops(operand) then Up(sp, StepSize(7, size))
    else sp
  }

  lemma {:induction false} OperandSteps(m: Machine, operand: Operand, size: Size)
    ensures AfterOperand(m, operand, size).registers(A7) == Stepped(m.registers(A7), operand, size)
    ensures AfterOperand(m, operand, size).memory == m.memory
  {
    hide Up, Down, StepSize;
  }

  lemma {:induction false} MoveSteps(m: Machine, operand: Operand, size: Size, pc: Long)
    ensures MoveToD7(m, operand, size, pc).registers(A7) == Stepped(m.registers(A7), operand, size)
    ensures MoveToD7(m, operand, size, pc).memory == m.memory
  {
    hide AfterOperand, ValueOf, Merge, Stepped, SignBit;
    OperandSteps(m, operand, size);
  }

  lemma {:induction false} CompareSteps(m: Machine, operand: Operand, size: Size, pc: Long)
    ensures CompareWithD7(m, operand, size, pc).registers(A7) == Stepped(m.registers(A7), operand, size)
    ensures CompareWithD7(m, operand, size, pc).memory == m.memory
  {
    hide AfterOperand, ValueOf, Truncate, SubtractFlags, Stepped;
    OperandSteps(m, operand, size);
  }

  lemma {:induction false} SavePushes(m: Machine)
    ensures SaveD7(m).registers(A7) == m.registers(A7) - 4
  {
    hide WriteLong;
  }

  lemma {:induction false} RestoreReads(m: Machine)
    ensures RestoreD7(m).registers(D7) == ReadMemory(m.memory, m.registers(A7), LongSize)
  {
    hide ReadMemory;
  }

  /** Where the last instruction looks for D7. */
  function RestoredFrom(sp: Long, first: Operand, second: Operand, size: Size): Long {
    Stepped(Stepped(sp - 4, first, size), second, size)
  }

  /** For any two operands, D7 is restored exactly if the saved memory holds it where their steps have left A7. */
  lemma {:induction false} RestoresWhatIsThere(m: Machine, first: Operand, second: Operand, size: Size, pc1: Long, pc2: Long)
    ensures Expansion(m, first, second, size, pc1, pc2).registers(D7)
            == ReadMemory(SaveD7(m).memory, RestoredFrom(m.registers(A7), first, second, size), LongSize)
  {
    hide SaveD7, MoveToD7, CompareWithD7, RestoreD7, ReadMemory, Stepped;
    var saved := SaveD7(m);
    var moved := MoveToD7(saved, first, size, pc1);
    SavePushes(m);
    MoveSteps(saved, first, size, pc1);
    CompareSteps(moved, second, size, pc2);
    RestoreReads(CompareWithD7(moved, second, size, pc2));
  }

  /** The operands leave A7 where it was: neither steps it, or one pushes and the other pops. */
  predicate StepsCancel(first: Operand, second: Operand) {
    || (!Pushes(first) && !Pops(first) && !Pushes(second) && !Pops(second))
    || (Pushes(first) && Pops(second))
    || (Pops(first) && Pushes(second))
  }

  lemma {:induction false} DownThenUp(x: Long, k: Long)
    ensures Up(Down(x, k), k) == x
  {
    assert Up(x - k, k) == x;
    hide Up;
    assert Down(x, k) == x - k;
    hide Down;
  }

  lemma {:induction false} UpThenDown(x: Long, k: Long)
    ensures Down(Up(x, k), k) == x
  {
    assert Down(x + k, k) == x;
    hide Down;
    assert Up(x, k) == x + k;
    hide Up;
  }

  lemma {:induction false} CancelledSteps(x: Long, first: Operand, second: Operand, size: Size)
    requires StepsCancel(first, second)
    ensures Stepped(Stepped(x, first, size), second, size) == x
  {
    hide Up, Down, StepSize;
    DownThenUp(x, StepSize(7, size));
    UpThenDown(x, StepSize(7, size));
  }

  /** A state in which no other four bytes than those of the slot read as D7. */
  function Witness(): Machine {
    Machine((r: RegisterNumber) => if r == A7 then 0x100 else if r == D7 then 0x0102_0304 else 0,
            (x: Long) => 0, Flags(false, false, false, false))
  }

  function WitnessByte(x: Long): bv8 {
    if x == 0xfc then 1 else if x == 0xfd then 2 else if x == 0xfe then 3 else if x == 0xff then 4 else 0
  }

  lemma {:induction false} WitnessMemory(x: Long)
    ensures SaveD7(Witness()).memory(x) == WitnessByte(x)
  {
  }

  lemma {:induction false} WitnessReads(at: Long)
    requires at == 0xf4 || at == 0xf8 || at == 0xfa || at == 0xfe || at == 0x100 || at == 0x104
    ensures ReadMemory(SaveD7(Witness()).memory, at, LongSize) != 0x0102_0304
  {
    WitnessMemory(at);
    WitnessMemory(at + 1);
    WitnessMemory(at + 2);
    WitnessMemory(at + 3);
    hide SaveD7;
  }

  lemma {:induction false} WitnessSteps(first: Operand, second: Operand, size: Size)
    requires !StepsCancel(first, second)
    ensures RestoredFrom(0x100, first, second, size) in {0xf4, 0xf8, 0xfa, 0xfe, 0x100, 0x104}
  {
    hide Pushes, Pops;
  }

  /** The expansion keeps D7 in this state of the machine. */
  predicate KeepsD7(m: Machine, first: Operand, second: Operand, size: Size, pc1: Long, pc2: Long) {
    Expansion(m, first, second, size, pc1, pc2).registers(D7) == m.registers(D7)
  }

  lemma {:induction false} CancelledStepsKeepD7(m: Machine, first: Operand, second: Operand, size: Size, pc1: Long, pc2: Long)
    requires StepsCancel(first, second)
    ensures KeepsD7(m, first, second, size, pc1, pc2)
  {
    hide Expansion, ReadMemory, SaveD7, Stepped, StepsCancel, Alike;
    RestoresWhatIsThere(m, first, second, size, pc1, pc2);
    CancelledSteps(m.registers(A7) - 4, first, second, size);
    SaveKeepsAlike(m);
  }

  /** For any two operands of any size, the expansion keeps D7 in every state
      of the machine exactly if their steps of A7 cancel out. */
  lemma {:induction false} StackOperandsKeepD7Exactly(first: Operand, second: Operand, size: Size, pc1: Long, pc2: Long)
    ensures (forall m: Machine :: KeepsD7(m, first, second, size, pc1, pc2)) <==> StepsCancel(first, second)
  {
    hide Expansion, ReadMemory, SaveD7, RestoredFrom, StepsCancel, KeepsD7;
    if StepsCancel(first, second) {
      forall m: Machine
        ensures KeepsD7(m, first, second, size, pc1, pc2)
      {
        CancelledStepsKeepD7(m, first, second, size, pc1, pc2);
      }
    } else {
      WitnessLosesD7(first, second, size, pc1, pc2);
    }
  }

  lemma {:induction false} WitnessLosesD7(first: Operand, second: Operand, size: Size, pc1: Long, pc2: Long)
    requires !StepsCancel(first, second)
    ensures !KeepsD7(Witness(), first, second, size, pc1, pc2)
  {
    hide Expansion, ReadMemory, SaveD7, RestoredFrom, StepsCancel;
    RestoresWhatIsThere(Witness(), first, second, size, pc1, pc2);
    WitnessSteps(first, second, size);
    WitnessReads(RestoredFrom(0x100, first, second, size));
  }

  /** For any two operands, the flags are those of what is read while D7 is saved and then loaded. */
  lemma {:induction false} ExpansionComparesWhatItReads(m: Machine, first: Operand, second: Operand, size: Size, pc1: Long, pc2: Long)
    requires Comparable(first)
    ensures var saved := SaveD7(m);
      Expansion(m, first, second, size, pc1, pc2).flags
      == SubtractFlags(ValueOf(saved, first, size, pc1),
                       ValueOf(MoveToD7(saved, first, size, pc1), second, size, pc2), size)
  {
    hide SaveD7, ValueOf, AfterOperand, Merge, Truncate, SubtractFlags, SignBit, ReadMemory;
    var saved := SaveD7(m);
    ValueIsTruncated(saved, first, size, pc1);
    MergedValue(AfterOperand(saved, first, size).registers(D7), ValueOf(saved, first, size, pc1), size);
  }

  /** An operand at a distance from the stack pointer. */
  predicate IsOnStack(operand: Operand) {
    && operand.Indirect? && operand.base == 7 && !operand.preDecrement && !operand.postIncrement && !operand.pcRelative
    && (operand.index.Some? ==> operand.index.value.register != A7)
  }

  lemma {:induction false} UpIs(x: Long, k: Long)
    ensures Up(x, k) == x + k
  {
  }

  lemma {:induction false} DownIs(x: Long, k: Long)
    ensures Down(x, k) == x - k
  {
  }

  lemma {:induction false} SumIs(base: Long, offset: Long, index: Long)
    ensures Sum(base, offset, index) == base + offset + index
  {
  }

  lemma {:induction false} SumFromLower(base: Long, offset: Long, index: Long)
    ensures Sum(base - 4, offset, index) == Down(base + offset + index, 4)
  {
  }

  lemma {:induction false} SumLower(base: Long, offset: Long, index: Long)
    ensures Sum(Down(base, 4), offset, index) == Down(Sum(base, offset, index), 4)
  {
    SumFromLower(base, offset, index);
    SumIs(base, offset, index);
    DownIs(base, 4);
    hide Sum, Down;
  }

  lemma {:induction false} AddressLower(m: Machine, m': Machine, operand: Operand, size: Size, pc: Long)
    requires IsOnStack(operand) && m'.registers(A7) == Down(m.registers(A7), 4)
    requires operand.index.Some? ==> m'.registers(operand.index.value.register) == m.registers(operand.index.value.register)
    ensures AddressOf(m', operand, size, pc) == Down(AddressOf(m, operand, size, pc), 4)
  {
    hide Sum, Down, Scaled;
    SumLower(m.registers(A7), operand.offset, IndexValue(m, operand));
  }

  lemma {:induction false} SaveLowers(m: Machine)
    ensures SaveD7(m).registers(A7) == Down(m.registers(A7), 4)
  {
    hide WriteLong;
  }

  /** While D7 is saved, the first operand on the stack is read four bytes too low. */
  lemma {:induction false} StackOperandIsReadLow(m: Machine, first: Operand, size: Size, pc: Long)
    requires IsOnStack(first)
    ensures ValueOf(SaveD7(m), first, size, pc)
            == ReadMemory(SaveD7(m).memory, Down(AddressOf(m, first, size, pc), 4), size)
  {
    SaveLowers(m);
    SaveKeepsOthers(m);
    hide ReadMemory, AddressOf, SaveD7, Down;
    AddressLower(m, SaveD7(m), first, size, pc);
  }

  lemma {:induction false} SaveKeepsOthers(m: Machine)
    ensures forall r: RegisterNumber :: r != A7 ==> SaveD7(m).registers(r) == m.registers(r)
  {
    hide WriteLong;
  }

  lemma {:induction false} StepsCommute(sp: Long, k: Long)
    ensures Up(sp - 4, k) == Down(sp + k, 4)
    ensures Down(sp - 4, k) == Down(sp - k, 4)
  {
  }

  lemma {:induction false} UpLower(sp: Long, k: Long)
    ensures Up(Down(sp, 4), k) == Down(Up(sp, k), 4)
  {
    StepsCommute(sp, k);
    DownIs(sp, 4);
    UpIs(sp, k);
    hide Up, Down;
  }

  lemma {:induction false} DownLower(sp: Long, k: Long)
    ensures Down(Down(sp, 4), k) == Down(Down(sp, k), 4)
  {
    StepsCommute(sp, k);
    DownIs(sp, 4);
    DownIs(sp, k);
    hide Down;
  }

  lemma {:induction false} StepLower(sp: Long, operand: Operand, size: Size)
    ensures Stepped(Down(sp, 4), operand, size) == Down(Stepped(sp, operand, size), 4)
  {
    UpLower(sp, StepSize(7, size));
    DownLower(sp, StepSize(7, size));
    hide Up, Down, StepSize;
  }

  lemma {:induction false} StepKeepsOthers(m: Machine, m': Machine, operand: Operand, size: Size, r: RegisterNumber)
    requires forall r: RegisterNumber :: r != A7 ==> m'.registers(r) == m.registers(r)
    requires r != A7
    ensures AfterOperand(m', operand, size).registers(r) == AfterOperand(m, operand, size).registers(r)
  {
    hide Moved;
  }

  lemma {:induction false} MoveKeepsOthers(m: Machine, operand: Operand, size: Size, pc: Long, r: RegisterNumber)
    requires r != D7
    ensures MoveToD7(m, operand, size, pc).registers(r) == AfterOperand(m, operand, size).registers(r)
  {
    hide AfterOperand, ValueOf, Merge, SignBit;
  }

  /** So is the second, whatever the first has made of the stack pointer. */
  lemma {:induction false} SecondStackOperandIsReadLow(m: Machine, first: Operand, second: Operand, size: Size, pc1: Long, pc2: Long)
    requires IsOnStack(second) && !IndexedByD7(second)
    ensures ValueOf(MoveToD7(SaveD7(m), first, size, pc1), second, size, pc2)
            == ReadMemory(SaveD7(m).memory, Down(AddressOf(AfterOperand(m, first, size), second, size, pc2), 4), size)
  {
    hide SaveD7, MoveToD7, ReadMemory, AddressOf, AfterOperand, Down, Stepped;
    var m1, moved := AfterOperand(m, first, size), MoveToD7(SaveD7(m), first, size, pc1);
    SaveLowers(m);
    MoveSteps(SaveD7(m), first, size, pc1);
    OperandSteps(m, first, size);
    StepLower(m.registers(A7), first, size);
    if second.index.Some? {
      SaveKeepsOthers(m);
      StepKeepsOthers(m, SaveD7(m), first, size, second.index.value.register);
      MoveKeepsOthers(SaveD7(m), first, size, pc1, second.index.value.register);
    }
    AddressLower(m1, moved, second, size, pc2);
  }

  /** The stack pointer itself is four too low as an operand. */
  lemma {:induction false} StackPointerIsReadLow(m: Machine, pc: Long)
    ensures ValueOf(SaveD7(m), AddressRegister(A7), LongSize, pc) == m.registers(A7) - 4
  {
    hide WriteLong;
  }

  /** (A7). */
  function StackTop(): Operand {
    Indirect(7, 0, false, false, None, false)
  }

  /** So CMP.L (A7),x compares D7 instead of the top of the stack. */
  lemma {:induction false} StackTopIsD7(m: Machine, pc: Long)
    ensures ValueOf(SaveD7(m), StackTop(), LongSize, pc) == m.registers(D7)
    ensures MoveToD7(SaveD7(m), StackTop(), LongSize, pc).registers(D7) == m.registers(D7)
  {
    hide ReadMemory, WriteLong, Alike, SignBit;
    SaveKeepsAlike(m);
    SavePushes(m);
  }

  // --- Which flags agree with CMP ---------------------------------------------------------------

  /** A number and its negation have the same sign only if they are the same. */
  lemma {:induction false} NegatedSign(d: Long, size: Size)
    ensures (IsNegative(Truncate(d, size), size) <==> IsNegative(Truncate(0 - d, size), size))
            <==> Truncate(d, size) == 0 || Truncate(d, size) == SignBit(size)
  {
  }

  predicate IsSum(a: Long, b: Long, d: Long) {
    a == b + d
  }

  lemma {:induction false} DifferenceOfSum(b: Long, d: Long, size: Size)
    ensures Difference(b + d, b, size) == Truncate(d, size)
    ensures Difference(b, b + d, size) == Truncate(0 - d, size)
  {
    hide Truncate;
  }

  lemma {:induction false} ReversedSum(a: Long, b: Long, d: Long, size: Size)
    requires IsSum(a, b, d)
    ensures (IsNegative(Difference(a, b, size), size) <==> IsNegative(Difference(b, a, size), size))
            <==> Difference(a, b, size) == 0 || Difference(a, b, size) == SignBit(size)
  {
    hide Truncate, IsNegative, SignBit, Difference;
    DifferenceOfSum(b, d, size);
    NegatedSign(d, size);
  }

  lemma {:induction false} ReversedSign(a: Long, b: Long, size: Size)
    ensures (IsNegative(Difference(a, b, size), size) <==> IsNegative(Difference(b, a, size), size))
            <==> Difference(a, b, size) == 0 || Difference(a, b, size) == SignBit(size)
  {
    hide Truncate, IsNegative, SignBit, Difference;
    assert IsSum(a, b, a - b);
    hide IsSum;
    var d :| IsSum(a, b, d);
    ReversedSum(a, b, d, size);
  }

  lemma {:induction false} ZeroByte(a: Long, b: Long)
    requires a & 0xff == a && b & 0xff == b
    ensures (a - b) & 0xff == 0 ==> a == b
  {
  }

  lemma {:induction false} ZeroWord(a: Long, b: Long)
    requires a & 0xffff == a && b & 0xffff == b
    ensures (a - b) & 0xffff == 0 ==> a == b
  {
  }

  lemma {:induction false} ZeroLong(a: Long, b: Long)
    ensures a - b == 0 ==> a == b
  {
  }

  lemma {:induction false} NoDifference(a: Long, size: Size)
    ensures Difference(a, a, size) == 0
  {
  }

  lemma {:induction false} ZeroDifference(a: Long, b: Long, size: Size)
    requires Truncate(a, size) == a && Truncate(b, size) == b
    ensures Difference(a, b, size) == 0 <==> a == b
  {
    NoDifference(a, size);
    match size {
      case ByteSize => ZeroByte(a, b);
      case WordSize => ZeroWord(a, b);
      case LongSize => ZeroLong(a, b);
    }
  }

  /** The values are half the range apart: they differ in the sign bit alone. */
  predicate AreOpposite(a: Long, b: Long, size: Size) {
    a ^ b == SignBit(size)
  }

  lemma {:induction false} OppositeBytes(a: Long, b: Long)
    requires a & 0xff == a && b & 0xff == b
    ensures Difference(a, b, ByteSize) == 0x80 <==> AreOpposite(a, b, ByteSize)
  {
  }

  lemma {:induction false} OppositeWords(a: Long, b: Long)
    requires a & 0xffff == a && b & 0xffff == b
    ensures Difference(a, b, WordSize) == 0x8000 <==> AreOpposite(a, b, WordSize)
  {
  }

  lemma {:induction false} OppositeLongs(a: Long, b: Long)
    ensures Difference(a, b, LongSize) == 0x8000_0000 <==> AreOpposite(a, b, LongSize)
  {
  }

  lemma {:induction false} OppositeDifference(a: Long, b: Long, size: Size)
    requires Truncate(a, size) == a && Truncate(b, size) == b
    ensures Difference(a, b, size) == SignBit(size) <==> AreOpposite(a, b, size)
  {
    hide Difference, AreOpposite;
    match size {
      case ByteSize => OppositeBytes(a, b);
      case WordSize => OppositeWords(a, b);
      case LongSize => OppositeLongs(a, b);
    }
  }

  lemma {:induction false} OppositeSigns(a: Long, b: Long, size: Size)
    requires AreOpposite(a, b, size)
    ensures IsNegative(a, size) <==> !IsNegative(b, size)
    ensures IsNegative(SignBit(size), size)
  {
  }

  lemma {:induction false} EqualAreNotOpposite(a: Long, b: Long, size: Size)
    ensures a == b ==> !AreOpposite(a, b, size)
    ensures !IsNegative(0, size)
  {
  }

  /** The flags of a - b against those of b - a: Z is the same, C only for equal
      values, N for equal and for opposite ones, and V for all but opposite ones. */
  lemma {:induction false} ReversedFlagsAgreeExactly(a: Long, b: Long, size: Size)
    requires Truncate(a, size) == a && Truncate(b, size) == b
    ensures var flags, compare := SubtractFlags(a, b, size), SubtractFlags(b, a, size);
      && (flags.z <==> compare.z) && (flags.z <==> a == b)
      && ((flags.c <==> compare.c) <==> a == b)
      && ((flags.n <==> compare.n) <==> a == b || AreOpposite(a, b, size))
      && ((flags.v <==> compare.v) <==> !AreOpposite(a, b, size))
      && (flags == compare <==> a == b)
  {
    hide Truncate, IsNegative, AreOpposite, SignBit, Difference;
    ReversedSign(a, b, size);
    ZeroDifference(a, b, size);
    ZeroDifference(b, a, size);
    OppositeDifference(a, b, size);
    if AreOpposite(a, b, size) {
      OppositeSigns(a, b, size);
    }
    EqualAreNotOpposite(a, b, size);
  }

  /** The assembled sequence subtracts the operands the other way round from
      CMP: it sets all its flags exactly for equal operands, Z always, and the
      others exactly as stated. */
  lemma {:induction false} ExpansionAgreesWithCompareExactly(m: Machine, first: Operand, second: Operand, size: Size, pc1: Long, pc2: Long)
    requires Comparable(first) && Comparable(second)
    requires !UsesStackPointer(first) && !UsesStackPointer(second)
    requires !IndexedByD7(second) && !second.DataRegister?
    requires AvoidsSlot(m, first, size, pc1, m.registers(A7))
    requires AvoidsSlot(AfterOperand(m, first, size), second, size, pc2, m.registers(A7))
    requires second.AddressRegister? ==> size == LongSize
    ensures var a, b := ValueOf(m, first, size, pc1), ValueOf(AfterOperand(m, first, size), second, size, pc2);
      var flags, compare := Expansion(m, first, second, size, pc1, pc2).flags, SubtractFlags(b, a, size);
      && (flags == compare <==> a == b)
      && (flags.z <==> compare.z)
      && ((flags.c <==> compare.c) <==> a == b)
      && ((flags.n <==> compare.n) <==> a == b || AreOpposite(a, b, size))
      && ((flags.v <==> compare.v) <==> !AreOpposite(a, b, size))
  {
    hide Expansion, SubtractFlags, Truncate, AvoidsSlot, Alike;
    ExpansionCompares(m, first, second, size, pc1, pc2);
    ValueIsTruncated(m, first, size, pc1);
    ValueIsTruncated(AfterOperand(m, first, size), second, size, pc2);
    ReversedFlagsAgreeExactly(ValueOf(m, first, size, pc1), ValueOf(AfterOperand(m, first, size), second, size, pc2), size);
  }

  // --- Word comparisons with an address register ---------------------------------------------------

  /** Condition codes of CMPA.W, which extends its source and compares all 32 bits. */
  function AddressCompareFlags(source: Long, register: Long): Flags {
    SubtractFlags(register, Extend(Low(source)), LongSize)
  }

  lemma {:induction false} LowOfWord(a: Long)
    requires Truncate(a, WordSize) == a
    ensures Low(a) as bv32 == a
  {
  }

  lemma {:induction false} LowOfTruncated(r: Long)
    ensures Low(Truncate(r, WordSize)) == Low(r)
    ensures Truncate(r, WordSize) == Low(r) as bv32
  {
  }

  lemma {:induction false} LongIsWhole(a: Long)
    ensures Truncate(a, LongSize) == a
  {
  }

  /** Comparing words, and comparing an extended word with a long. */
  lemma {:induction false} AddressZeroExactly(a: Long, r: Long)
    requires Truncate(a, WordSize) == a
    ensures var b := Truncate(r, WordSize);
      (a == b <==> r == Extend(Low(a))) <==> a != b || Extend(Low(r)) == r
  {
    LowOfTruncated(r);
    LowOfWord(a);
    LowOfExtended(Low(a));
    hide Low, Extend, Truncate;
  }

  /** For CMP.W with an address register, Z is that of CMPA exactly if the low
      words differ, or the register is the extension of its low word. */
  lemma {:induction false} AddressCompareExactly(m: Machine, first: Operand, second: Operand, pc1: Long, pc2: Long)
    requires Comparable(first) && !UsesStackPointer(first) && !UsesStackPointer(second) && second.AddressRegister?
    requires AvoidsSlot(m, first, WordSize, pc1, m.registers(A7))
    ensures var a, r := ValueOf(m, first, WordSize, pc1), AfterOperand(m, first, WordSize).registers(second.address);
      var flags := Expansion(m, first, second, WordSize, pc1, pc2).flags;
      (flags.z <==> AddressCompareFlags(a, r).z) <==> a != Truncate(r, WordSize) || Extend(Low(r)) == r
  {
    var a, r := ValueOf(m, first, WordSize, pc1), AfterOperand(m, first, WordSize).registers(second.address);
    var b := Truncate(r, WordSize);
    assert ValueOf(AfterOperand(m, first, WordSize), second, WordSize, pc2) == b;
    hide ValueOf, AfterOperand, Truncate, Low, Extend, Alike, Expansion, AvoidsSlot, Difference, IsNegative;
    AvoidsNothing(AfterOperand(m, first, WordSize), second, WordSize, pc2, m.registers(A7));
    ExpansionCompares(m, first, second, WordSize, pc1, pc2);
    ValueIsTruncated(m, first, WordSize, pc1);
    TruncatedTwice(r, WordSize);
    ZeroDifference(a, b, WordSize);
    LongIsWhole(r);
    LongIsWhole(Extend(Low(a)));
    ZeroDifference(r, Extend(Low(a)), LongSize);
    AddressZeroExactly(a, r);
  }

  lemma {:induction false} AvoidsNothing(m: Machine, operand: Operand, size: Size, pc: Long, sp: Long)
    requires operand.AddressRegister?
    ensures AvoidsSlot(m, operand, size, pc, sp)
  {
  }
}
