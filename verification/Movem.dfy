/** The register mask of MOVEM (section 4 of the M68000 Family Programmer's
    Reference Manual, MOVEM) and the register lists it is built from. */
module Movem {
  import opened Words
  import opened Operands

  // A register number and a bit position share the range 0-15.
  type Position = RegisterNumber

  predicate Bit(word: Word, k: Position) {
    (word >> k) & 1 == 1
  }

  function OneBit(k: Position): Word {
    1 << k
  }

  /** D0-D7 own bits 0-7 and A0-A7 bits 8-15. */
  function StandardBit(register: RegisterNumber): Position {
    if register < 8 then register + 8 else register - 8
  }

  function MaskBit(register: RegisterNumber, predecrement: bool): Position {
    if predecrement then 15 - StandardBit(register) else StandardBit(register)
  }

  /** The mask for a list, taken from its front. */
  function Mask(registers: seq<RegisterNumber>, predecrement: bool): Word {
    if registers == [] then 0
    else
      var last := |registers| - 1;
      Mask(registers[..last], predecrement) | OneBit(MaskBit(registers[last], predecrement))
  }

  method BuildMask(registers: seq<RegisterNumber>, predecrement: bool) returns (mask: Word)
    ensures mask == Mask(registers, predecrement)
  {
    mask := 0;
    for i := 0 to |registers|
      invariant mask == Mask(registers[..i], predecrement)
    {
      assert registers[..i + 1][..i] == registers[..i];
      mask := mask | OneBit(MaskBit(registers[i], predecrement));
    }
    assert registers[..|registers|] == registers;
  }

  lemma {:induction false} ShiftedBit(word: Word, b: Position, k: Position)
    ensures Bit(word | OneBit(b), k) <==> Bit(word, k) || k == b
  {
  }

  lemma {:induction false} MaskBitIsInjective(a: RegisterNumber, b: RegisterNumber, predecrement: bool)
    ensures MaskBit(a, predecrement) == MaskBit(b, predecrement) ==> a == b
  {
  }

  /** A register's bit is set exactly when the list names the register. */
  lemma {:induction false} MaskMembership(registers: seq<RegisterNumber>, predecrement: bool, r: RegisterNumber)
    ensures Bit(Mask(registers, predecrement), MaskBit(r, predecrement)) <==> r in registers
  {
    if registers != [] {
      var last := |registers| - 1;
      var front := registers[..last];
      assert registers == front + [registers[last]];
      MaskMembership(front, predecrement, r);
      ShiftedBit(Mask(front, predecrement), MaskBit(registers[last], predecrement), MaskBit(r, predecrement));
      MaskBitIsInjective(r, registers[last], predecrement);
    }
  }

  // --- Reading a mask ------------------------------------------------------------

  /** The registers below `n` whose bits are set, in ascending order. */
  function Listed(mask: Word, predecrement: bool, n: bv16): seq<RegisterNumber>
    requires n <= 16
  {
    if n == 0 then []
    else
      Listed(mask, predecrement, n - 1)
      + if Bit(mask, MaskBit(n - 1, predecrement)) then [n - 1] else []
  }

  function ReadMask(mask: Word, predecrement: bool): seq<RegisterNumber> {
    Listed(mask, predecrement, 16)
  }

  lemma {:induction false} ListedMembership(mask: Word, predecrement: bool, n: bv16, r: RegisterNumber)
    requires n <= 16
    ensures r in Listed(mask, predecrement, n) <==> r < n && Bit(mask, MaskBit(r, predecrement))
  {
    if n != 0 {
      ListedMembership(mask, predecrement, n - 1, r);
    }
  }

  /** The processor transfers exactly the listed registers, whatever their
      order in the source and however often they are repeated. */
  lemma {:induction false} MaskRoundTrip(registers: seq<RegisterNumber>, predecrement: bool)
    ensures forall r: RegisterNumber ::
              r in ReadMask(Mask(registers, predecrement), predecrement) <==> r in registers
  {
    forall r: RegisterNumber
      ensures r in ReadMask(Mask(registers, predecrement), predecrement) <==> r in registers
    {
      MaskMembership(registers, predecrement, r);
      ListedMembership(Mask(registers, predecrement), predecrement, 16, r);
    }
  }

  // --- The predecrement mask ------------------------------------------------------

  /** The sixteen bits in the opposite order. */
  function Reverse(word: Word): Word {
    var pairs := ((word >> 1) & 0x5555) | ((word & 0x5555) << 1);
    var nibbles := ((pairs >> 2) & 0x3333) | ((pairs & 0x3333) << 2);
    var bytes := ((nibbles >> 4) & 0x0f0f) | ((nibbles & 0x0f0f) << 4);
    (bytes >> 8) | (bytes << 8)
  }

  lemma {:induction false} ReverseBit(word: Word, k: Position)
    ensures Bit(Reverse(word), k) <==> Bit(word, 15 - k)
  {
  }

  /** Two different words differ in some bit. */
  lemma {:induction false} DifferingBit(a: Word, b: Word) returns (k: Position)
    requires a != b
    ensures Bit(a, k) != Bit(b, k)
  {
    var x := a ^ b;
    k := if Bit(x, 0) then 0 else if Bit(x, 1) then 1 else if Bit(x, 2) then 2 else if Bit(x, 3) then 3
    else if Bit(x, 4) then 4 else if Bit(x, 5) then 5 else if Bit(x, 6) then 6 else if Bit(x, 7) then 7
    else if Bit(x, 8) then 8 else if Bit(x, 9) then 9 else if Bit(x, 10) then 10 else if Bit(x, 11) then 11
    else if Bit(x, 12) then 12 else if Bit(x, 13) then 13 else if Bit(x, 14) then 14 else 15;
  }

  lemma {:induction false} BitsDetermineWord(a: Word, b: Word)
    requires forall k: Position :: Bit(a, k) <==> Bit(b, k)
    ensures a == b
  {
    if a != b {
      var k := DifferingBit(a, b);
      assert false;
    }
  }

  /** The register a standard bit stands for. */
  function Owner(k: Position): RegisterNumber {
    if k < 8 then k + 8 else k - 8
  }

  lemma {:induction false} OwnerOfBit(k: Position)
    ensures MaskBit(Owner(k), false) == k
    ensures MaskBit(Owner(15 - k), true) == k
  {
  }

  /** Storing with predecrement uses the standard mask back to front. */
  lemma {:induction false} PredecrementMaskIsReversed(registers: seq<RegisterNumber>)
    ensures Mask(registers, true) == Reverse(Mask(registers, false))
  {
    var standard, stored := Mask(registers, false), Mask(registers, true);
    forall k: Position
      ensures Bit(stored, k) <==> Bit(Reverse(standard), k)
    {
      OwnerOfBit(k);
      OwnerOfBit(15 - k);
      ReverseBit(standard, k);
      MaskMembership(registers, true, Owner(15 - k));
      MaskMembership(registers, false, Owner(15 - k));
    }
    BitsDetermineWord(stored, Reverse(standard));
  }

  /** Two lists naming the same registers assemble to the same mask. */
  lemma {:induction false} SameRegistersSameMask(a: seq<RegisterNumber>, b: seq<RegisterNumber>, predecrement: bool)
    requires forall r: RegisterNumber :: r in a <==> r in b
    ensures Mask(a, predecrement) == Mask(b, predecrement)
  {
    forall k: Position
      ensures Bit(Mask(a, predecrement), k) <==> Bit(Mask(b, predecrement), k)
    {
      var r := Owner(if predecrement then 15 - k else k);
      OwnerOfBit(k);
      MaskMembership(a, predecrement, r);
      MaskMembership(b, predecrement, r);
    }
    BitsDetermineWord(Mask(a, predecrement), Mask(b, predecrement));
  }

  // --- Register lists in the source ---------------------------------------------------

  // The parser counts through a range with ordinary integers.
  type Counted = n: int | 0 <= n < 16

  datatype Segment = Single(register: Counted) | Range(first: Counted, last: Counted)

  function Span(first: Counted, last: Counted): nat {
    if first <= last then last - first + 1 else first - last + 1
  }

  /** The registers from `first` to `last`, stepping towards `last`. */
  function Stepped(first: Counted, last: Counted): seq<Counted> {
    if first <= last then seq(Span(first, last), i requires 0 <= i < Span(first, last) => first + i)
    else seq(Span(first, last), i requires 0 <= i < Span(first, last) => first - i)
  }

  function Registers(segments: seq<Segment>): seq<Counted> {
    if segments == [] then []
    else
      var last := |segments| - 1;
      Registers(segments[..last])
      + match segments[last] { case Single(r) => [r] case Range(a, b) => Stepped(a, b) }
  }

  method ExpandRange(first: Counted, last: Counted) returns (registers: seq<Counted>)
    ensures registers == Stepped(first, last)
  {
    registers := [];
    var step := if first <= last then 1 else -1;
    var register: int := first;
    while register != last + step
      invariant |registers| <= Span(first, last)
      invariant register == first + step * |registers|
      invariant registers == Stepped(first, last)[..|registers|]
      decreases Span(first, last) - |registers|
    {
      registers := registers + [register];
      register := register + step;
    }
  }

  method ParseRegisterList(segments: seq<Segment>) returns (registers: seq<Counted>)
    ensures registers == Registers(segments)
  {
    registers := [];
    for i := 0 to |segments|
      invariant registers == Registers(segments[..i])
    {
      assert segments[..i + 1][..i] == segments[..i];
      match segments[i]
      case Single(r) =>
        registers := registers + [r];
      case Range(first, last) =>
        var range := ExpandRange(first, last);
        registers := registers + range;
    }
    assert segments[..|segments|] == segments;
  }

  function Number(n: Counted): RegisterNumber {
    n as bv16
  }

  /** The counted registers as the numbers an operand carries. */
  function Numbers(counted: seq<Counted>): (numbers: seq<RegisterNumber>)
    ensures |numbers| == |counted|
    ensures forall i :: 0 <= i < |counted| ==> numbers[i] == Number(counted[i])
  {
    seq(|counted|, i requires 0 <= i < |counted| => Number(counted[i]))
  }

  lemma {:induction false} SteppedMembership(first: Counted, last: Counted, n: Counted)
    ensures n in Stepped(first, last) <==> first <= n <= last || last <= n <= first
  {
    if first <= n <= last {
      assert Stepped(first, last)[n - first] == n;
    } else if last <= n <= first {
      assert Stepped(first, last)[first - n] == n;
    }
  }

  lemma {:induction false} SameCountedSameNumbers(a: seq<Counted>, b: seq<Counted>)
    requires forall n: Counted :: n in a ==> n in b
    ensures forall r: RegisterNumber :: r in Numbers(a) ==> r in Numbers(b)
  {
    forall r: RegisterNumber | r in Numbers(a)
      ensures r in Numbers(b)
    {
      var i :| 0 <= i < |a| && Numbers(a)[i] == r;
      assert a[i] in a;
      var j :| 0 <= j < |b| && b[j] == a[i];
      assert Numbers(b)[j] == r;
    }
  }

  /** A range may be written in either direction. */
  lemma {:induction false} RangeDirectionIsImmaterial(before: seq<Segment>, a: Counted, b: Counted, predecrement: bool)
    ensures Mask(Numbers(Registers(before + [Range(a, b)])), predecrement)
            == Mask(Numbers(Registers(before + [Range(b, a)])), predecrement)
  {
    var up, down := before + [Range(a, b)], before + [Range(b, a)];
    assert up[..|before|] == before && down[..|before|] == before;
    forall n: Counted
      ensures n in Registers(up) <==> n in Registers(down)
    {
      SteppedMembership(a, b, n);
      SteppedMembership(b, a, n);
    }
    SameCountedSameNumbers(Registers(up), Registers(down));
    SameCountedSameNumbers(Registers(down), Registers(up));
    SameRegistersSameMask(Numbers(Registers(up)), Numbers(Registers(down)), predecrement);
  }
}
