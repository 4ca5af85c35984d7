/** Encoded instructions in the layout: how long they are, and where branches to labels lead. */
module CodeLayout {
  import opened Outcomes
  import opened Words
  import opened Source
  import opened Operands
  import opened MachineCode
  import A = Assembler
  import E = Encoder
  import D = Decoder
  import R = EncoderRoundTrip

  /** An instruction whose operands may name symbols. */
  type Template = Symbols -> E.Instruction

  function CodeAt(i: E.Instruction, start: nat): Result<seq<ProgramImage.Byte>> {
    match E.Encode(i, AddressOf(start))
    case Ok(words) => Ok(WordBytes(words))
    case Err(message) => Err(message)
  }

  /** What the encoder makes of it, for any symbols and address. */
  function Assembled(template: Template): A.Statement {
    A.Instruction((symbols, start) => CodeAt(template(symbols), start))
  }

  // --- The length of an instruction -------------------------------------------------------------

  /** Both are written in the same number of words: values do not matter, except
      whether the displacement of a plain indirect operand is zero. */
  predicate SameShape(a: Operand, b: Operand) {
    match a
    case Immediate(_) => b.Immediate?
    case Absolute(_) => b.Absolute?
    case Relative(_) => b.Relative?
    case Indirect(_, x, pre, post, index, _) =>
      b.Indirect? && a == b.(offset := x) && (pre || post || index.Some? || (x == 0 <==> b.offset == 0))
    case _ => a == b
  }

  predicate SameShapes(i: E.Instruction, j: E.Instruction) {
    && i.operation == j.operation && i.size == j.size && |i.operands| == |j.operands|
    && forall k :: 0 <= k < |i.operands| ==> SameShape(i.operands[k], j.operands[k])
  }

  predicate SameLength(r: Result<seq<Word>>, s: Result<seq<Word>>) {
    (r.Ok? <==> s.Ok?) && (r.Ok? ==> |r.value| == |s.value|)
  }

  predicate SameEas(r: Result<EffectiveAddress>, s: Result<EffectiveAddress>) {
    (r.Ok? <==> s.Ok?) && (r.Ok? ==> r.value.bits == s.value.bits && |r.value.extensions| == |s.value.extensions|)
  }

  lemma {:induction false} EaShape(a: Operand, b: Operand, size: Size)
    requires SameShape(a, b)
    ensures SameEas(EncodeEa(a, size), EncodeEa(b, size))
  {
    hide IndexWord, Low, High;
  }

  /** For operands that differ in their displacement alone the condition is exact. */
  lemma {:induction false} DisplacementDecidesLength(a: Operand, offset: Long, size: Size)
    requires a.Indirect?
    ensures |EncodeEa(a, size).value.extensions| == |EncodeEa(a.(offset := offset), size).value.extensions|
            <==> SameShape(a, a.(offset := offset))
  {
    hide IndexWord, Low, High;
  }

  lemma {:induction false} ImmediateShape(a: Long, b: Long, size: Size)
    ensures |ImmediateWords(a, size)| == |ImmediateWords(b, size)|
  {
  }

  lemma {:induction false} TwoOperandShape(i: E.Instruction, j: E.Instruction)
    requires SameShapes(i, j)
    ensures i.operation.Move? || i.operation.Movea? ==> SameLength(E.EncodeMove(i), E.EncodeMove(j))
    ensures i.operation.Quick? ==> SameLength(E.EncodeQuick(i, i.operation.subtract), E.EncodeQuick(j, i.operation.subtract))
    ensures i.operation.Lea? ==> SameLength(E.EncodeLea(i), E.EncodeLea(j))
    ensures i.operation.Scc? ==> SameLength(E.EncodeScc(i, i.operation.suffix), E.EncodeScc(j, i.operation.suffix))
  {
    hide EncodeEa, SameShape, E.MoveWord, E.QuickWord, E.LeaWord, E.ConditionalWord;
    if |i.operands| > 0 {
      EaShape(i.operands[0], j.operands[0], ByteSize);
    }
    if |i.operands| > 1 {
      EaShape(i.operands[0], j.operands[0], i.size);
      EaShape(i.operands[0], j.operands[0], LongSize);
      EaShape(i.operands[1], j.operands[1], i.size);
      RegisterShape(i.operands[1], j.operands[1]);
    } else if |i.operands| == 1 {
      EaShape(i.operands[0], j.operands[0], LongSize);
    }
  }

  lemma {:induction false} RegisterShape(a: Operand, b: Operand)
    requires SameShape(a, b)
    ensures E.DataNumberOf(a).Ok? <==> E.DataNumberOf(b).Ok?
    ensures E.AddressNumberOf(a).Ok? <==> E.AddressNumberOf(b).Ok?
    ensures (a.DataRegister? <==> b.DataRegister?) && (a.Immediate? <==> b.Immediate?) && (a.RegisterList? <==> b.RegisterList?)
    ensures a.RegisterList? ==> a == b
  {
  }

  lemma {:induction false} ImmediateFormShape(i: E.Instruction, j: E.Instruction, kind: E.AluKind)
    requires SameShapes(i, j)
    ensures SameLength(E.EncodeAluImmediate(i, kind), E.EncodeAluImmediate(j, kind))
  {
    hide EncodeEa, SameShape, E.SizedWord, ImmediateWords;
    if |i.operands| > 1 {
      EaShape(i.operands[1], j.operands[1], i.size);
      ImmediateShape(E.Value(i.operands[0]), E.Value(j.operands[0]), i.size);
    }
  }

  lemma {:induction false} AluShape(i: E.Instruction, j: E.Instruction, kind: E.AluKind)
    requires SameShapes(i, j)
    ensures SameLength(E.EncodeAlu(i, kind), E.EncodeAlu(j, kind))
  {
    hide EncodeEa, SameShape, E.AluWord, E.SizedWord, E.EncodeAluImmediate, E.DataNumberOf;
    ImmediateFormShape(i, j, kind);
    if |i.operands| > 1 {
      EaShape(i.operands[0], j.operands[0], i.size);
      EaShape(i.operands[1], j.operands[1], i.size);
      RegisterShape(i.operands[0], j.operands[0]);
      RegisterShape(i.operands[1], j.operands[1]);
    }
  }

  predicate SameOptions(a: Option<Operand>, b: Option<Operand>) {
    (a.Some? <==> b.Some?) && (a.Some? ==> SameShape(a.value, b.value))
  }

  lemma {:induction false} MovemOperandShapes(a: seq<Operand>, b: seq<Operand>)
    requires |a| == |b| && forall k :: 0 <= k < |a| ==> SameShape(a[k], b[k])
    ensures E.FirstList(a) == E.FirstList(b)
    ensures SameOptions(E.FirstMemory(a), E.FirstMemory(b))
  {
    hide SameShape;
    if a != [] {
      RegisterShape(a[0], b[0]);
      MovemOperandShapes(a[1..], b[1..]);
    }
  }

  lemma {:induction false} MovemShape(i: E.Instruction, j: E.Instruction)
    requires SameShapes(i, j)
    ensures SameLength(E.EncodeMovem(i), E.EncodeMovem(j))
  {
    hide EncodeEa, SameShape, E.MovemWord, E.FirstList, E.FirstMemory;
    MovemOperandShapes(i.operands, j.operands);
    if E.FirstMemory(i.operands).Some? {
      EaShape(E.FirstMemory(i.operands).value, E.FirstMemory(j.operands).value, i.size);
    }
  }

  lemma {:induction false} ControlShape(i: E.Instruction, j: E.Instruction, address: Long, other: Long)
    requires SameShapes(i, j)
    ensures i.operation.Moveq? ==> SameLength(E.EncodeMoveq(i), E.EncodeMoveq(j))
    ensures i.operation.Trapcc? ==> |E.EncodeTrapcc(i, i.operation.suffix)| == |E.EncodeTrapcc(j, i.operation.suffix)|
    ensures i.operation.Branch? ==>
              SameLength(E.EncodeBranch(i, i.operation.suffix, address), E.EncodeBranch(j, i.operation.suffix, other))
    ensures i.operation.Dbcc? ==>
              SameLength(E.EncodeDbcc(i, i.operation.suffix, address), E.EncodeDbcc(j, i.operation.suffix, other))
  {
    hide SameShape, E.Value, E.DataNumberOf, High, Low, E.Displacement;
    if |i.operands| > 0 {
      RegisterShape(i.operands[0], j.operands[0]);
    }
    if |i.operands| > 1 {
      RegisterShape(i.operands[1], j.operands[1]);
    }
  }

  /** Whether an instruction can be encoded, and how long it is then, depends
      on the shapes of its operands alone: not on addresses, displacements or values. */
  lemma {:induction false} LengthIsShape(i: E.Instruction, j: E.Instruction, address: Long, other: Long)
    requires SameShapes(i, j)
    ensures SameLength(E.Encode(i, address), E.Encode(j, other))
  {
    hide SameShapes, E.EncodeMove, E.EncodeQuick, E.EncodeLea, E.EncodeAlu, E.EncodeAluImmediate, E.EncodeMovem,
      E.EncodeMoveq, E.EncodeTrapcc, E.EncodeBranch, E.EncodeDbcc, E.EncodeScc;
    assert i.operation == j.operation by { SameOperation(i, j); }
    match i.operation {
      case Alu(kind) => AluShape(i, j, kind);
      case AluImmediate(kind) => ImmediateFormShape(i, j, kind);
      case MoveMultiple => MovemShape(i, j);
      case _ =>
        TwoOperandShape(i, j);
        ControlShape(i, j, address, other);
    }
  }

  lemma {:induction false} SameOperation(i: E.Instruction, j: E.Instruction)
    requires SameShapes(i, j)
    ensures i.operation == j.operation
  {
  }

  /** Labels do not decide the shapes of the operands. */
  ghost predicate KeepsShape(p: A.Program, template: Template) {
    forall s: Symbols, t: Symbols | A.SameBesideLabels(p, s, t) :: SameShapes(template(s), template(t))
  }

  lemma {:induction false} KeptShape(p: A.Program, template: Template, s: Symbols, t: Symbols)
    requires KeepsShape(p, template) && A.SameBesideLabels(p, s, t)
    ensures SameShapes(template(s), template(t))
  {
  }

  lemma {:induction false} CodeLengths(i: E.Instruction, j: E.Instruction, start: nat)
    requires SameShapes(i, j)
    ensures (CodeAt(i, start).Ok? <==> CodeAt(j, start).Ok?)
    ensures CodeAt(i, start).Ok? ==> |CodeAt(i, start).value| == |CodeAt(j, start).value|
  {
    hide SameShapes, E.Encode, AddressOf;
    LengthIsShape(i, j, AddressOf(start), AddressOf(start));
  }

  /** An encoded instruction whose operand shapes do not depend on labels is
      label-blind, so programs of such instructions settle in one pass. */
  lemma {:induction false} InstructionIsLabelBlind(p: A.Program, template: Template)
    requires KeepsShape(p, template)
    ensures A.LabelBlind(p, Assembled(template))
  {
    hide KeepsShape, A.SameBesideLabels, CodeAt, SameShapes;
    var statement := Assembled(template);
    forall s: Symbols, t: Symbols, cursor: nat | A.SameBesideLabels(p, s, t)
      ensures A.Place(statement, s, cursor) == A.Place(statement, t, cursor)
      ensures A.LayoutLength(statement, s, cursor) == A.LayoutLength(statement, t, cursor)
    {
      KeptShape(p, template, s, t);
      CodeLengths(template(s), template(t), cursor);
    }
  }

  // --- Branches to labels -----------------------------------------------------------------------------

  /** A branch to a symbol. */
  function BranchTo(suffix: E.Suffix, size: Size, symbols: Symbols, name: string): E.Instruction {
    E.Instruction(E.Branch(suffix), size, [Absolute(if name in symbols then symbols[name] as bv32 else 0)])
  }

  /** A branch is as long whatever its label's address is. */
  lemma {:induction false} BranchIsLabelBlind(p: A.Program, suffix: E.Suffix, size: Size, name: string)
    ensures A.LabelBlind(p, Assembled(symbols => BranchTo(suffix, size, symbols, name)))
  {
    hide A.LabelBlind, Assembled;
    InstructionIsLabelBlind(p, symbols => BranchTo(suffix, size, symbols, name));
  }

  /** Where the processor goes on: displacements count from the word after the opcode. */
  function Reached(address: Long, displacement: Long): Long {
    (address + 2) + displacement
  }

  lemma {:induction false} DisplacementReaches(target: Long, address: Long)
    ensures Reached(address, E.Displacement(target, address)) == target
  {
    assert Reached(address, target - (address + 2)) == target;
    hide Reached;
    assert E.Displacement(target, address) == target - (address + 2);
    hide E.Displacement;
  }

  /** The word that the processor finds at an address is a branch that leads to a target. */
  ghost predicate BranchesTo(bytes: map<nat, ProgramImage.Byte>, start: nat, length: nat, target: Long) {
    && Present(bytes, start, length)
    && var decoded := D.Decode(ImageWords(bytes, start, length));
      && decoded.Some? && decoded.value.rest == []
      && decoded.value.value.operation.Branch? && |decoded.value.value.operands| == 1
      && decoded.value.value.operands[0].Relative?
      && Reached(AddressOf(start), decoded.value.value.operands[0].displacement) == target
  }

  lemma {:induction false} CanonicalBranch(suffix: E.Suffix, size: Size, target: Long, address: Long)
    ensures var i := E.Instruction(E.Branch(suffix), size, [Absolute(target)]);
      && (R.BranchReaches(size, target, address) ==> R.Legal(i, address))
      && E.Encode(i, address).Ok? && |E.Encode(i, address).value| == (if size == LongSize then 3 else 2)
      && var c := R.Canonical(i, address);
        c.operation.Branch? && c.operands == [Relative(E.Displacement(target, address))]
  {
    hide E.Displacement, High, Low;
  }

  lemma {:induction false} BranchInImage(suffix: E.Suffix, size: Size, target: Long, start: nat, bytes: map<nat, ProgramImage.Byte>)
    requires R.BranchReaches(size, target, AddressOf(start))
    requires var code := CodeAt(E.Instruction(E.Branch(suffix), size, [Absolute(target)]), start);
      code.Ok? && A.Lies(code.value, start, bytes)
    ensures BranchesTo(bytes, start, if size == LongSize then 3 else 2, target)
  {
    hide AddressOf, R.BranchReaches, R.Legal, R.Canonical, E.Encode, D.Decode, A.Lies, WordBytes, ImageWords, E.Displacement, Present;
    var i, address := E.Instruction(E.Branch(suffix), size, [Absolute(target)]), AddressOf(start);
    CanonicalBranch(suffix, size, target, address);
    var words := E.Encode(i, address).value;
    WordsAreReadBack(words, bytes, start);
    R.RoundTrip(i, address, []);
    assert words + [] == words;
    DisplacementReaches(target, address);
  }

  lemma {:induction false} CodeOfAssembled(template: Template, symbols: Symbols, start: nat)
    ensures A.Code(Assembled(template), symbols, start) == CodeAt(template(symbols), start)
  {
    hide CodeAt;
  }

  lemma {:induction false} LabelAddress(symbols: Symbols, name: string, target: nat)
    requires name in symbols && symbols[name] == Unsigned(target)
    ensures symbols[name] as bv32 == AddressOf(target)
  {
  }

  lemma {:induction false} LabelIsPlaced(p: A.Program, symbols: Symbols, l: nat, target: nat)
    requires p.Valid() && A.LabelsMatch(p, symbols) && l < |p.labels|
    requires A.EmissionStart(p, symbols, p.labels[l].index) == Ok(target)
    ensures p.labels[l].name in symbols && symbols[p.labels[l].name] == Unsigned(target)
  {
    hide A.EmissionStart;
    assert A.LabelMatches(p, symbols, p.labels[l]);
  }

  lemma {:induction false} HeldCode(p: A.Program, symbols: Symbols, k: nat, start: nat, bytes: map<nat, ProgramImage.Byte>, i: E.Instruction)
    requires k < |p.statements| && A.HoldsCode(p, symbols, k, bytes) && A.EmissionStart(p, symbols, k) == Ok(start)
    requires A.Code(p.statements[k], symbols, start) == CodeAt(i, start)
    ensures CodeAt(i, start).Ok? && A.Lies(CodeAt(i, start).value, start, bytes)
  {
    hide A.EmissionStart, CodeAt, A.Code, A.Lies;
  }

  /** In a stable program a branch to a label, decoded from the image, leads to
      where the label's bytes begin, if its displacement fits. */
  lemma {:induction false} BranchesLeadToLabels(p: A.Program, k: nat, l: nat, suffix: E.Suffix, size: Size)
    requires p.Valid() && A.PairFreeProgram(p) && k < |p.statements| && l < |p.labels|
    requires A.Passes(p, p.symbols, 4) == A.Passes(p, p.symbols, 3)
    requires A.AllEncode(p, A.Passes(p, p.symbols, 3))
    requires A.Forward(p, A.Passes(p, p.symbols, 4))
    requires A.LayoutCursor(p, A.Passes(p, p.symbols, 4), |p.statements|) <= TWO_TO_32
    requires p.statements[k] == Assembled(symbols => BranchTo(suffix, size, symbols, p.labels[l].name))
    requires var symbols := A.Passes(p, p.symbols, 4);
      var target := A.LayoutStart(p, symbols, p.labels[l].index);
      R.BranchReaches(size, AddressOf(target), AddressOf(A.LayoutStart(p, symbols, k)))
    ensures var symbols := A.Passes(p, p.symbols, 4);
      var emission := A.Emit(p, symbols, |p.statements|);
      && emission.Ok?
      && A.EmissionStart(p, symbols, k).Ok? && A.EmissionStart(p, symbols, p.labels[l].index).Ok?
      && BranchesTo(emission.value.output.bytes, A.EmissionStart(p, symbols, k).value,
                    if size == LongSize then 3 else 2,
                    AddressOf(A.EmissionStart(p, symbols, p.labels[l].index).value))
  {
    hide A.PairFreeProgram, A.AllEncode, A.Forward, A.Emit, A.EmissionStart, A.LayoutCursor, A.LayoutStart, A.Passes,
      A.Code, AddressOf, R.BranchReaches, BranchesTo, CodeAt, A.FollowsLayout, A.HoldsCode, A.LabelsMatch, Assembled,
      A.KeysBelow;
    var symbols := A.Passes(p, p.symbols, 4);
    var name, index := p.labels[l].name, p.labels[l].index;
    A.StableProgramIsEmitted(p, k);
    A.StableProgramIsEmitted(p, index);
    A.StableFourthPass(p);
    var start, target := A.LayoutStart(p, symbols, k), A.LayoutStart(p, symbols, index);
    var bytes := A.Emit(p, symbols, |p.statements|).value.output.bytes;
    LabelIsPlaced(p, symbols, l, target);
    LabelAddress(symbols, name, target);
    var template: Template := symbols => BranchTo(suffix, size, symbols, name);
    CodeOfAssembled(template, symbols, start);
    HeldCode(p, symbols, k, start, bytes, BranchTo(suffix, size, symbols, name));
    BranchInImage(suffix, size, AddressOf(target), start, bytes);
  }
}
