/** Data directives read back from the image: which numbers lie at which addresses. */
module DataImage {
  import opened Outcomes
  import opened Source
  import opened ProgramImage
  import A = Assembler

  // --- Bytes as numbers ------------------------------------------------------------------------

  /** The number that bytes make, the first of them being the highest. */
  function NumberOf(bytes: seq<Byte>): nat {
    if bytes == [] then 0 else NumberOf(bytes[..|bytes| - 1]) * 0x100 + bytes[|bytes| - 1]
  }

  /** How many numbers there are of so many bytes. */
  function Limit(size: DataSize): nat {
    if size == 1 then 0x100 else if size == 2 then 0x1_0000 else 0x1_0000_0000
  }

  lemma {:induction false} OneByte(a: Byte)
    ensures NumberOf([a]) == a
  {
    assert [a][..0] == [];
  }

  lemma {:induction false} TwoBytes(a: Byte, b: Byte)
    ensures NumberOf([a, b]) == a * 0x100 + b
  {
    OneByte(a);
    assert [a, b][..1] == [a];
  }

  lemma {:induction false} FourBytes(a: Byte, b: Byte, c: Byte, d: Byte)
    ensures NumberOf([a, b, c, d]) == a * 0x100_0000 + b * 0x1_0000 + c * 0x100 + d
  {
    TwoBytes(a, b);
    assert [a, b, c][..2] == [a, b] && [a, b, c, d][..3] == [a, b, c];
    assert NumberOf([a, b, c]) == NumberOf([a, b]) * 0x100 + c;
  }

  lemma {:induction false} TwoDigits(value: nat)
    ensures value / 0x100 % 0x100 * 0x100 + value % 0x100 == value % 0x1_0000
  {
  }

  lemma {:induction false} Shifted(value: nat)
    ensures value / 0x1_0000 / 0x100 == value / 0x100_0000
  {
  }

  lemma {:induction false} FourDigits(value: nat)
    ensures value / 0x1_0000 % 0x1_0000 * 0x1_0000 + value % 0x1_0000 == value % 0x1_0000_0000
  {
  }

  /** A scalar is read back as its value, cut to its size. */
  lemma {:induction false} ScalarReadsBack(value: nat, size: DataSize)
    ensures NumberOf(A.Scalar(value, size)) == value % Limit(size)
  {
    if size == 1 {
      OneByte(A.ByteOf(value));
    } else if size == 2 {
      TwoBytes(A.ByteOf(value / 0x100), A.ByteOf(value));
      TwoDigits(value);
    } else {
      FourBytes(A.ByteOf(value / 0x100_0000), A.ByteOf(value / 0x1_0000), A.ByteOf(value / 0x100), A.ByteOf(value));
      TwoDigits(value);
      TwoDigits(value / 0x1_0000);
      Shifted(value);
      FourDigits(value);
    }
  }

  // --- Elements of a directive ---------------------------------------------------------------------

  /** The number at position `i` of bytes that are read in elements of one size. */
  predicate IsCell(bytes: seq<Byte>, size: DataSize, i: nat, number: nat) {
    i * size + size <= |bytes| && NumberOf(bytes[i * size..i * size + size]) == number % Limit(size)
  }

  /** The bytes are these numbers, cut to their size, one after the other. */
  ghost predicate AreCells(bytes: seq<Byte>, size: DataSize, numbers: seq<nat>) {
    |bytes| == |numbers| * size && forall i :: 0 <= i < |numbers| ==> IsCell(bytes, size, i, numbers[i])
  }

  lemma {:induction false} FrontCell(a: seq<Byte>, b: seq<Byte>, size: DataSize, i: nat, number: nat)
    requires IsCell(a, size, i, number)
    ensures IsCell(a + b, size, i, number)
  {
    hide NumberOf;
    assert (a + b)[i * size..i * size + size] == a[i * size..i * size + size];
  }

  lemma {:induction false} BackCell(a: seq<Byte>, b: seq<Byte>, size: DataSize, n: nat, j: nat, number: nat)
    requires |a| == n * size && IsCell(b, size, j, number)
    ensures IsCell(a + b, size, n + j, number)
  {
    hide NumberOf;
    A.Distribute(n, j, size);
    assert (a + b)[(n + j) * size..(n + j) * size + size] == b[j * size..j * size + size];
  }

  lemma {:induction false} CellsAppend(a: seq<Byte>, b: seq<Byte>, size: DataSize, x: seq<nat>, y: seq<nat>)
    requires AreCells(a, size, x) && AreCells(b, size, y)
    ensures AreCells(a + b, size, x + y)
  {
    hide IsCell;
    A.Distribute(|x|, |y|, size);
    forall i | 0 <= i < |x + y|
      ensures IsCell(a + b, size, i, (x + y)[i])
    {
      if i < |x| {
        assert IsCell(a, size, i, x[i]);
        FrontCell(a, b, size, i, x[i]);
      } else {
        assert IsCell(b, size, i - |x|, y[i - |x|]);
        BackCell(a, b, size, |x|, i - |x|, y[i - |x|]);
      }
    }
  }

  lemma {:induction false} NoCells(size: DataSize)
    ensures AreCells([], size, [])
  {
  }

  lemma {:induction false} ScalarIsCell(value: nat, size: DataSize)
    ensures AreCells(A.Scalar(value, size), size, [value])
  {
    hide NumberOf;
    ScalarReadsBack(value, size);
    var bytes := A.Scalar(value, size);
    assert bytes[0 * size..0 * size + size] == bytes;
    assert IsCell(bytes, size, 0, value);
  }

  function Numbers(units: seq<Unit>): (numbers: seq<nat>)
    ensures |numbers| == |units| && forall i :: 0 <= i < |units| ==> numbers[i] == units[i]
  {
    seq(|units|, i requires 0 <= i < |units| => units[i])
  }

  lemma {:induction false} UnitsAreCells(units: seq<Unit>, size: DataSize)
    ensures AreCells(A.UnitBytes(units, size), size, Numbers(units))
  {
    hide AreCells, A.Scalar;
    if units == [] {
      NoCells(size);
      assert Numbers(units) == [];
    } else {
      var front, last := units[..|units| - 1], units[|units| - 1];
      UnitsAreCells(front, size);
      ScalarIsCell(last, size);
      CellsAppend(A.UnitBytes(front, size), A.Scalar(last, size), size, Numbers(front), [last]);
      assert Numbers(units) == Numbers(front) + [last];
    }
  }

  lemma {:induction false} RepeatedCells(fill: nat, n: nat, size: DataSize)
    ensures AreCells(A.Repeat(A.Scalar(fill, size), n), size, seq(n, _ => fill))
  {
    hide AreCells, A.Scalar;
    if n == 0 {
      NoCells(size);
      assert seq(n, _ => fill) == [];
    } else {
      RepeatedCells(fill, n - 1, size);
      ScalarIsCell(fill, size);
      CellsAppend(A.Repeat(A.Scalar(fill, size), n - 1), A.Scalar(fill, size), size, seq(n - 1, _ => fill), [fill]);
      assert seq(n, _ => fill) == seq(n - 1, _ => fill) + [fill];
    }
  }

  lemma {:induction false} ZerosMakeZero(n: nat)
    ensures NumberOf(A.Zeros(n)) == 0
  {
    if n > 0 {
      ZerosMakeZero(n - 1);
      assert A.Zeros(n)[..n - 1] == A.Zeros(n - 1);
    }
  }

  lemma {:induction false} ZerosAreCells(n: nat, size: DataSize)
    ensures AreCells(A.Zeros(n * size), size, seq(n, _ => 0))
  {
    hide AreCells, A.Zeros;
    if n == 0 {
      NoZeros();
      NoCells(size);
      assert seq(n, _ => 0) == [];
    } else {
      A.Distribute(n - 1, 1, size);
      ZerosAreCells(n - 1, size);
      ZeroIsCell(size);
      CellsAppend(A.Zeros((n - 1) * size), A.Zeros(size), size, seq(n - 1, _ => 0), [0]);
      ZerosAdd((n - 1) * size, size);
      assert seq(n, _ => 0) == seq(n - 1, _ => 0) + [0];
    }
  }

  lemma {:induction false} NoZeros()
    ensures A.Zeros(0) == []
  {
  }

  lemma {:induction false} ZerosAdd(m: nat, n: nat)
    ensures A.Zeros(m) + A.Zeros(n) == A.Zeros(m + n)
  {
  }

  lemma {:induction false} ZeroIsCell(size: DataSize)
    ensures AreCells(A.Zeros(size), size, [0])
  {
    hide NumberOf;
    ZerosMakeZero(size);
    assert A.Zeros(size)[0..size] == A.Zeros(size);
  }

  /** The number an operand stands for: itself, a known symbol's value, or the
      first code unit of a quoted text. */
  lemma {:induction false} OperandMeans(token: Token, symbols: Symbols, otherwise: nat)
    ensures token.Number? ==> A.ValueOf(token, symbols, otherwise) == token.value
    ensures token.Symbol? && token.name in symbols ==> A.ValueOf(token, symbols, otherwise) == symbols[token.name]
    ensures token.Quoted? && token.units != [] ==> A.ValueOf(token, symbols, otherwise) == token.units[0]
    ensures token.Quoted? && token.units == [] ==> A.ValueOf(token, symbols, otherwise) == 0
    ensures token.Blank? || (token.Symbol? && token.name !in symbols) ==> A.ValueOf(token, symbols, otherwise) == otherwise
  {
  }

  /** A value is one number, a quoted one a number for each of its code units. */
  function ElementsOf(value: Token, symbols: Symbols): seq<nat> {
    match value
    case Number(number) => [number]
    case Quoted(units) => Numbers(units)
    case Symbol(name) => [if name in symbols then symbols[name] else 0]
    case Blank => [0]
  }

  function AllElements(values: seq<Token>, symbols: Symbols): seq<nat> {
    if values == [] then []
    else AllElements(values[..|values| - 1], symbols) + ElementsOf(values[|values| - 1], symbols)
  }

  /** Without surrogate pairs every code unit is a character. */
  lemma {:induction false} CharactersAreUnits(units: seq<Unit>, i: nat)
    requires A.PairFree(units) && i <= |units|
    ensures A.CharactersFrom(units, i) == units[i..]
    decreases |units| - i
  {
    if i < |units| {
      CharactersAreUnits(units, i + 1);
    }
  }

  /** Of a surrogate pair, only the first half is written. */
  lemma {:induction false} PairsLoseTheirSecondHalf(units: seq<Unit>, i: nat)
    requires A.PairAt(units, i)
    ensures A.CharactersFrom(units, i) == [units[i]] + A.CharactersFrom(units, i + 2)
  {
  }

  lemma {:induction false} ValueIsCells(value: Token, size: DataSize, symbols: Symbols)
    requires value.Quoted? ==> A.PairFree(value.units)
    ensures AreCells(A.ValueBytes(value, size, symbols), size, ElementsOf(value, symbols))
  {
    hide AreCells, A.Scalar;
    OperandMeans(value, symbols, 0);
    if value.Quoted? {
      CharactersAreUnits(value.units, 0);
      assert value.units[0..] == value.units;
      UnitsAreCells(value.units, size);
    } else {
      ScalarIsCell(A.ValueOf(value, symbols, 0), size);
    }
  }

  lemma {:induction false} DataAreCells(values: seq<Token>, size: DataSize, symbols: Symbols)
    requires A.PairFreeValues(values)
    ensures AreCells(A.DataBytes(values, size, symbols), size, AllElements(values, symbols))
  {
    hide AreCells, A.ValueBytes, ElementsOf;
    if values == [] {
      NoCells(size);
    } else {
      var front, last := values[..|values| - 1], values[|values| - 1];
      DataAreCells(front, size, symbols);
      ValueIsCells(last, size, symbols);
      CellsAppend(A.DataBytes(front, size, symbols), A.ValueBytes(last, size, symbols), size,
                  AllElements(front, symbols), ElementsOf(last, symbols));
    }
  }

  // --- In the image --------------------------------------------------------------------------------------

  predicate IsData(statement: A.Statement) {
    statement.Data? || statement.Block? || statement.Storage?
  }

  /** The numbers that a directive puts into the image. */
  function NumbersOf(statement: A.Statement, symbols: Symbols): seq<nat>
    requires IsData(statement)
  {
    match statement
    case Data(_, values) => AllElements(values, symbols)
    case Block(_, operands) =>
      seq(A.ValueOf(A.TokenAt(operands, 0), symbols, 0), _ => A.ValueOf(A.TokenAt(operands, 1), symbols, 0))
    case Storage(_, count) => seq(A.ValueOf(count, symbols, 0), _ => 0)
  }

  lemma {:induction false} CodeIsCells(statement: A.Statement, symbols: Symbols, start: nat)
    requires IsData(statement) && A.PairFreeStatement(statement)
    ensures A.Code(statement, symbols, start).Ok?
    ensures AreCells(A.Code(statement, symbols, start).value, statement.size, NumbersOf(statement, symbols))
  {
    hide AreCells, A.Scalar, A.DataBytes, A.Zeros, A.Repeat, A.ValueOf, AllElements;
    match statement {
      case Data(size, values) => DataAreCells(values, size, symbols);
      case Block(size, operands) =>
        RepeatedCells(A.ValueOf(A.TokenAt(operands, 1), symbols, 0), A.ValueOf(A.TokenAt(operands, 0), symbols, 0), size);
      case Storage(size, count) => ZerosAreCells(A.ValueOf(count, symbols, 0), size);
    }
  }

  predicate IsPresent(bytes: map<nat, Byte>, at: nat, n: nat) {
    forall j :: at <= j < at + n ==> j in bytes
  }

  /** The number in so many bytes of the image, the first of them being the highest. */
  function ImageNumber(bytes: map<nat, Byte>, at: nat, size: nat): nat
    requires IsPresent(bytes, at, size)
  {
    if size == 0 then 0 else ImageNumber(bytes, at, size - 1) * 0x100 + bytes[at + size - 1]
  }

  predicate HasNumber(bytes: map<nat, Byte>, at: nat, size: DataSize, number: nat) {
    IsPresent(bytes, at, size) && ImageNumber(bytes, at, size) == number % Limit(size)
  }

  lemma {:induction false} LyingNumber(code: seq<Byte>, from: nat, n: nat, start: nat, bytes: map<nat, Byte>)
    requires A.Lies(code, start, bytes) && from + n <= |code|
    ensures IsPresent(bytes, start + from, n)
    ensures ImageNumber(bytes, start + from, n) == NumberOf(code[from..from + n])
  {
    forall j | start + from <= j < start + from + n
      ensures j in bytes
    {
      assert A.HasByte(bytes, start + (j - start), code[j - start]);
    }
    if n > 0 {
      LyingNumber(code, from, n - 1, start, bytes);
      assert A.HasByte(bytes, start + (from + n - 1), code[from + n - 1]);
      assert code[from..from + n][..n - 1] == code[from..from + n - 1];
    }
  }

  /** Statement `k`'s number `i` lies in the image where its turn comes. */
  ghost predicate IsHeld(p: A.Program, symbols: Symbols, k: nat, i: nat, bytes: map<nat, Byte>)
    requires k < |p.statements| && IsData(p.statements[k])
  {
    var start, size, numbers := A.EmissionStart(p, symbols, k), p.statements[k].size, NumbersOf(p.statements[k], symbols);
    i < |numbers| ==> start.Ok? && HasNumber(bytes, start.value + i * size, size, numbers[i])
  }

  /** In an image assembled without going back or past 2^32, every element of
      a DC, every repetition of a DCB and every unit of a DS is read back
      from its address, high byte first, as its value cut to the element size. */
  lemma {:induction false} DataIsReadBack(p: A.Program, symbols: Symbols, e: A.Emission, k: nat, i: nat)
    requires A.Emit(p, symbols, |p.statements|) == Ok(e) && e.cursor <= TWO_TO_32 && A.Forward(p, symbols)
    requires k < |p.statements| && IsData(p.statements[k]) && A.PairFreeStatement(p.statements[k])
    ensures IsHeld(p, symbols, k, i, e.output.bytes)
  {
    hide A.Emit, A.Forward, A.EmissionStart, A.Code, NumbersOf, NumberOf, ImageNumber, A.PairFreeStatement, A.Lies;
    var statement := p.statements[k];
    if i < |NumbersOf(statement, symbols)| {
      A.EmittedCodeStays(p, symbols, |p.statements|, e);
      assert A.HoldsCode(p, symbols, k, e.output.bytes);
      var start := A.EmissionStart(p, symbols, k).value;
      CodeIsCells(statement, symbols, start);
      var code := A.Code(statement, symbols, start).value;
      assert IsCell(code, statement.size, i, NumbersOf(statement, symbols)[i]);
      LyingNumber(code, i * statement.size, statement.size, start, e.output.bytes);
    }
  }
}
