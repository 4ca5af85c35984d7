/** The assembler's loops, proved against the layout and emission functions. */
module AssemblerPasses {
  import opened Outcomes
  import opened Source
  import opened ProgramImage
  import opened Assembler
  import opened EmissionTrace

  // --- Writing bytes ---------------------------------------------------------------------

  lemma {:induction false} WriteConcatenation(output: ByteMap, address: nat, a: seq<Byte>, b: seq<Byte>, wraps: bool)
    ensures WriteBytes(WriteBytes(output, address, a, wraps), address + |a|, b, wraps)
            == WriteBytes(output, address, a + b, wraps)
    decreases |b|
  {
    if b == [] {
      assert a + b == a;
    } else {
      var last := |b| - 1;
      WriteConcatenation(output, address, a, b[..last], wraps);
      assert (a + b)[..|a + b| - 1] == a + b[..last];
    }
  }

  function Divisor(k: nat): nat
    requires k < 4
    ensures Divisor(k) > 0
  {
    if k == 0 then 1 else if k == 1 then 0x100 else if k == 2 then 0x1_0000 else 0x100_0000
  }

  method WriteScalar(target: ByteMap, address: nat, value: nat, size: DataSize) returns (written: ByteMap, next: nat)
    ensures written == WriteBytes(target, address, Scalar(value, size), true)
    ensures next == address + size
  {
    written := target;
    var bytes := Scalar(value, size);
    for offset := 0 to size
      invariant written == WriteBytes(target, address, bytes[..offset], true)
    {
      assert bytes[..offset + 1][..offset] == bytes[..offset];
      assert bytes[offset] == ByteOf(value / Divisor(size - offset - 1));
      written := written.Set(Unsigned(address + offset), ByteOf(value / Divisor(size - offset - 1)));
    }
    assert bytes[..size] == bytes;
    next := address + size;
  }

  lemma {:induction false} WriteNothing(target: ByteMap, address: nat, wraps: bool)
    ensures WriteBytes(target, address, [], wraps) == target
  {
  }

  lemma {:induction false} WriteOneMore(target: ByteMap, address: nat, done: seq<Unit>, unit: Unit, size: DataSize)
    ensures |UnitBytes(done + [unit], size)| == |UnitBytes(done, size)| + size
    ensures WriteBytes(WriteBytes(target, address, UnitBytes(done, size), true),
                       address + |UnitBytes(done, size)|, Scalar(unit, size), true)
            == WriteBytes(target, address, UnitBytes(done + [unit], size), true)
  {
    hide WriteBytes, Scalar;
    assert (done + [unit])[..|done|] == done;
    WriteConcatenation(target, address, UnitBytes(done, size), Scalar(unit, size), true);
  }

  lemma {:induction false} NextCharacter(done: seq<Unit>, units: seq<Unit>, i: nat)
    requires i < |units|
    ensures done + CharactersFrom(units, i)
            == (done + [units[i]]) + CharactersFrom(units, i + if PairAt(units, i) then 2 else 1)
  {
    hide PairAt;
  }

  lemma {:induction false} NoCharacters(units: seq<Unit>, done: seq<Unit>)
    ensures done + CharactersFrom(units, |units|) == done
  {
  }

  /** One scalar for every character of a quoted value. */
  method WriteCharacters(target: ByteMap, address: nat, units: seq<Unit>, size: DataSize)
    returns (written: ByteMap, next: nat)
    ensures written == WriteBytes(target, address, UnitBytes(Characters(units), size), true)
    ensures next == address + |UnitBytes(Characters(units), size)|
  {
    written, next := target, address;
    var i := 0;
    ghost var done: seq<Unit> := [];
    assert UnitBytes(done, size) == [];
    WriteNothing(target, address, true);
    hide WriteBytes, UnitBytes, Scalar, Unsigned, CharactersFrom, PairAt;
    while i < |units|
      invariant done + CharactersFrom(units, i) == Characters(units)
      invariant written == WriteBytes(target, address, UnitBytes(done, size), true)
      invariant next == address + |UnitBytes(done, size)|
      decreases |units| - i
    {
      var following := i + if PairAt(units, i) then 2 else 1;
      WriteOneMore(target, address, done, units[i], size);
      NextCharacter(done, units, i);
      written, next := WriteScalar(written, next, units[i], size);
      done := done + [units[i]];
      i := following;
    }
    NoCharacters(units, done);
  }

  method WriteRepeated(target: ByteMap, address: nat, value: nat, count: nat, size: DataSize)
    returns (written: ByteMap, next: nat)
    ensures written == WriteBytes(target, address, Repeat(Scalar(value, size), count), true)
    ensures next == address + |Repeat(Scalar(value, size), count)|
  {
    written, next := target, address;
    for index := 0 to count
      invariant written == WriteBytes(target, address, Repeat(Scalar(value, size), index), true)
      invariant next == address + |Repeat(Scalar(value, size), index)|
    {
      WriteConcatenation(target, address, Repeat(Scalar(value, size), index), Scalar(value, size), true);
      written, next := WriteScalar(written, next, value, size);
    }
  }

  method EmitDirective(target: ByteMap, address: nat, statement: Statement, symbols: Symbols)
    returns (written: ByteMap, next: nat)
    requires !Marker(statement) && !statement.Instruction?
    ensures var code := Code(statement, symbols, address).value;
      written == WriteBytes(target, address, code, Wraps(statement)) && next == address + |code|
  {
    match statement {
      case Storage(size, count) =>
        var length := ValueOf(count, symbols, 0) * size;
        written := target;
        for index := 0 to length
          invariant written == WriteBytes(target, address, Zeros(index), false)
        {
          assert Zeros(index + 1)[..index] == Zeros(index);
          written := written.Set(address + index, 0);
        }
        next := address + length;
      case Block(size, operands) =>
        written, next := WriteRepeated(target, address, ValueOf(TokenAt(operands, 1), symbols, 0),
                                       ValueOf(TokenAt(operands, 0), symbols, 0), size);
      case Data(size, values) =>
        written, next := EmitData(target, address, values, size, symbols);
    }
  }

  lemma {:induction false} DataStep(target: ByteMap, address: nat, values: seq<Token>, v: nat, size: DataSize, symbols: Symbols)
    requires v < |values|
    ensures var before, more := DataBytes(values[..v], size, symbols), ValueBytes(values[v], size, symbols);
      && DataBytes(values[..v + 1], size, symbols) == before + more
      && WriteBytes(WriteBytes(target, address, before, true), address + |before|, more, true)
         == WriteBytes(target, address, before + more, true)
  {
    hide WriteBytes, ValueBytes;
    assert values[..v + 1][..v] == values[..v];
    WriteConcatenation(target, address, DataBytes(values[..v], size, symbols), ValueBytes(values[v], size, symbols), true);
  }

  method EmitData(target: ByteMap, address: nat, values: seq<Token>, size: DataSize, symbols: Symbols)
    returns (written: ByteMap, next: nat)
    ensures written == WriteBytes(target, address, DataBytes(values, size, symbols), true)
    ensures next == address + |DataBytes(values, size, symbols)|
  {
    hide WriteBytes, ValueBytes;
    WriteNothing(target, address, true);
    written, next := target, address;
    for v := 0 to |values|
      invariant written == WriteBytes(target, address, DataBytes(values[..v], size, symbols), true)
      invariant next == address + |DataBytes(values[..v], size, symbols)|
    {
      DataStep(target, address, values, v, size, symbols);
      written, next := WriteValue(written, next, values[v], size, symbols);
    }
    assert values[..|values|] == values;
  }

  method WriteValue(target: ByteMap, address: nat, value: Token, size: DataSize, symbols: Symbols)
    returns (written: ByteMap, next: nat)
    ensures written == WriteBytes(target, address, ValueBytes(value, size, symbols), true)
    ensures next == address + |ValueBytes(value, size, symbols)|
  {
    if value.Quoted? {
      written, next := WriteCharacters(target, address, value.units, size);
    } else {
      written, next := WriteScalar(target, address, ValueOf(value, symbols, 0), size);
    }
  }

  // --- Layout passes ---------------------------------------------------------------------------

  /** One pass over the statements: their start addresses, and whether every instruction could be encoded. */
  method LayoutPass(p: Program, symbols: Symbols) returns (starts: seq<nat>, encodes: bool)
    ensures |starts| == |p.statements|
    ensures forall k :: 0 <= k < |starts| ==> starts[k] == LayoutStart(p, symbols, k)
    ensures encodes <==> AllEncode(p, symbols)
  {
    hide Place, LayoutLength;
    var cursor := p.Origin();
    starts, encodes := [], true;
    for k := 0 to |p.statements|
      invariant |starts| == k
      invariant cursor == LayoutCursor(p, symbols, k)
      invariant forall i :: 0 <= i < k ==> starts[i] == LayoutStart(p, symbols, i)
      invariant encodes <==> forall i :: 0 <= i < k ==> Encodes(p.statements[i], symbols, LayoutStart(p, symbols, i))
    {
      var statement := p.statements[k];
      var start := Place(statement, symbols, cursor);
      starts := starts + [start];
      if statement.Instruction? && statement.code(symbols, start).Err? {
        encodes := false;
      }
      cursor := start + LayoutLength(statement, symbols, start);
    }
  }

  method UpdateLabels(p: Program, symbols: Symbols, starts: seq<nat>) returns (updated: Symbols)
    requires p.Valid() && |starts| == |p.statements|
    requires forall k :: 0 <= k < |starts| ==> starts[k] == LayoutStart(p, symbols, k)
    ensures updated == Pass(p, symbols)
  {
    updated := symbols;
    for l := 0 to |p.labels|
      invariant updated == Relabel(p, symbols, symbols, l)
    {
      updated := updated[p.labels[l].name := Unsigned(starts[p.labels[l].index])];
    }
  }

  // --- Emission ----------------------------------------------------------------------------------

  method EmitStatement(e: Emission, p: Program, k: nat, symbols: Symbols) returns (emission: Result<Emission>)
    requires k < |p.statements|
    ensures emission == EmitOne(e, p, k, symbols)
  {
    var statement := p.statements[k];
    if statement.Org? {
      var cursor := Place(statement, symbols, e.cursor);
      return Ok(e.(cursor := cursor, loadAddress := Min(e.loadAddress, cursor)));
    }
    if Marker(statement) {
      return Ok(e);
    }
    var output, start := e.output, e.cursor;
    if Aligned(statement) && start % 2 != 0 {
      output, start := output.Set(start, 0), start + 1;
    }
    var next := start;
    if statement.Instruction? {
      var code := statement.code(symbols, start);
      if code.Err? {
        return Err(code.message);
      }
      output, next := WriteInstruction(output, start, code.value);
    } else {
      output, next := EmitDirective(output, start, statement, symbols);
    }
    emission := Ok(Emission(output, next,
                            e.sourceMap + if next > start then [Entry(start, next - start, k)] else [], e.loadAddress));
  }

  method EmitProgram(p: Program, symbols: Symbols) returns (emission: Result<Emission>)
    ensures emission == Emit(p, symbols, |p.statements|)
  {
    var e := Begin(p);
    for k := 0 to |p.statements|
      invariant Emit(p, symbols, k) == Ok(e)
    {
      emission := EmitStatement(e, p, k, symbols);
      if emission.Err? {
        EmissionStops(p, symbols, k + 1, |p.statements|);
        return;
      }
      e := emission.value;
    }
    emission := Ok(e);
  }

  method WriteInstruction(target: ByteMap, address: nat, bytes: seq<Byte>) returns (written: ByteMap, next: nat)
    ensures written == WriteBytes(target, address, bytes, false) && next == address + |bytes|
  {
    written := target;
    for offset := 0 to |bytes|
      invariant written == WriteBytes(target, address, bytes[..offset], false)
    {
      assert bytes[..offset + 1][..offset] == bytes[..offset];
      written := written.Set(address + offset, bytes[offset]);
    }
    assert bytes[..|bytes|] == bytes;
    next := address + |bytes|;
  }

  /** An error ends the emission for good. */
  lemma {:induction false} EmissionStops(p: Program, symbols: Symbols, k: nat, n: nat)
    requires k <= n <= |p.statements| && Emit(p, symbols, k).Err?
    ensures Emit(p, symbols, n) == Emit(p, symbols, k)
    decreases n
  {
    hide EmitOne;
    if k < n {
      EmissionStops(p, symbols, k, n - 1);
    }
  }

  // --- The whole assembler --------------------------------------------------------------------------

  datatype Assembly =
    | Diagnosed(symbols: Symbols)
    | Thrown(message: string)
    | Assembled(symbols: Symbols, image: Image, sourceMap: seq<Entry>)

  method Assemble(p: Program) returns (r: Assembly)
    requires p.Valid()
    ensures r.Diagnosed? <==> p.loadErrors || !AllEncode(p, Passes(p, p.symbols, 3))
    ensures r.Diagnosed? ==> r.symbols == Passes(p, p.symbols, 4)
    ensures r.Assembled? ==>
              var emission := Emit(p, Passes(p, p.symbols, 4), |p.statements|);
              && emission.Ok?
              && r.symbols == Passes(p, p.symbols, 4)
              && r.sourceMap == emission.value.sourceMap
              && (KeysBelow(emission.value.output.bytes, ADDRESS_SPACE) ==>
                    Canonical(r.image.segments, emission.value.output.bytes))
              && r.image.entryPoint == EntryPoint(p, r.symbols, emission.value.loadAddress) % ADDRESS_SPACE
    ensures r.Thrown? ==>
              var emission := Emit(p, Passes(p, p.symbols, 4), |p.statements|);
              emission.Err? || !KeysBelow(emission.value.output.bytes, ADDRESS_SPACE)
  {
    var symbols := p.symbols;
    var encodes := true;
    for pass := 0 to 4
      invariant symbols == Passes(p, p.symbols, pass)
      invariant pass > 0 ==> (encodes <==> AllEncode(p, Passes(p, p.symbols, pass - 1)))
    {
      var starts;
      starts, encodes := LayoutPass(p, symbols);
      symbols := UpdateLabels(p, symbols, starts);
    }
    if p.loadErrors || !encodes {
      return Diagnosed(symbols);
    }
    var emission := EmitProgram(p, symbols);
    EmitCursor(p, symbols, |p.statements|);
    if emission.Err? {
      return Thrown(emission.message);
    }
    var segments := BuildSegments(emission.value.output);
    var image := CreateSegmentedProgramImage(segments, Some(EntryPoint(p, symbols, emission.value.loadAddress)));
    if KeysBelow(emission.value.output.bytes, ADDRESS_SPACE) {
      CanonicalSegmentsAreAccepted(segments, emission.value.output.bytes);
    }
    if image.Err? {
      return Thrown(image.message);
    }
    r := Assembled(symbols, image.value, emission.value.sourceMap);
  }

  /** The entry label's address, or the lowest ORG reached. */
  function EntryPoint(p: Program, symbols: Symbols, loadAddress: nat): nat {
    if p.entryLabel.Some? && p.entryLabel.value in symbols then symbols[p.entryLabel.value] else loadAddress
  }

  /** The image is entered at the label that END names, if it is known, and
      otherwise at the lowest of the origin and the ORGs' addresses. */
  lemma {:induction false} EntryPointMeans(p: Program, symbols: Symbols, e: Emission)
    requires Emit(p, symbols, |p.statements|) == Ok(e)
    ensures p.entryLabel.Some? && p.entryLabel.value in symbols ==>
              EntryPoint(p, symbols, e.loadAddress) == symbols[p.entryLabel.value]
    ensures p.entryLabel.None? || p.entryLabel.value !in symbols ==>
              IsLowest(p, symbols, |p.statements|, EntryPoint(p, symbols, e.loadAddress))
  {
    hide Emit, IsLowest;
    LoadAddressIsLowest(p, symbols, |p.statements|, e);
  }
}
