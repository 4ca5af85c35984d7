/** The layout passes and the emission pass of the source assembler. */
module Assembler {
  import opened Outcomes
  import opened Source
  import opened ProgramImage

  /** A loaded statement. An instruction is known by what the encoder makes of
      it: its bytes, or an error, for any symbols and address. */
  datatype Statement =
    | Org(target: Token)
    | End
    | Equ
    | Storage(size: DataSize, count: Token)
    | Block(size: DataSize, operands: seq<Token>)
    | Data(size: DataSize, values: seq<Token>)
    | Instruction(code: (Symbols, nat) -> Result<seq<Byte>>)

  datatype Label = Label(name: string, index: nat)

  datatype Program = Program(
    statements: seq<Statement>,
    labels: seq<Label>,
    symbols: Symbols,
    origin: Option<Value>,
    entryLabel: Option<string>,
    loadErrors: bool)
  {
    /** What the loader guarantees when it reports no exception. */
    predicate Valid() {
      && (forall l :: 0 <= l < |labels| ==> labels[l].index < |statements|)
      && (forall l, m :: 0 <= l < m < |labels| ==> labels[l].name != labels[m].name)
    }

    function Origin(): nat {
      origin.GetOr(0)
    }
  }

  // --- Expressions and directive lengths -----------------------------------------------

  function Expression(token: Token, symbols: Symbols): Option<Value> {
    match token
    case Number(value) => Some(value)
    case Quoted(units) => Some(if units == [] then 0 else units[0])
    case Symbol(name) => if name in symbols then Some(symbols[name]) else None
    case Blank => None
  }

  function ValueOf(token: Token, symbols: Symbols, otherwise: nat): nat {
    match Expression(token, symbols)
    case Some(value) => value
    case None => otherwise
  }

  function TokenAt(tokens: seq<Token>, k: nat): Token {
    if k < |tokens| then tokens[k] else Number(0)
  }

  /** The layout counts the code units of a quoted value. */
  function CountValues(values: seq<Token>): nat {
    if values == [] then 0
    else
      var last := |values| - 1;
      CountValues(values[..last]) + if values[last].Quoted? then |values[last].units| else 1
  }

  function DirectiveLength(statement: Statement, symbols: Symbols): nat
    requires !statement.Instruction?
  {
    match statement
    case Storage(size, count) => ValueOf(count, symbols, 0) * size
    case Block(size, operands) => ValueOf(TokenAt(operands, 0), symbols, 0) * size
    case Data(size, values) => CountValues(values) * size
    case _ => 0
  }

  // --- Layout ------------------------------------------------------------------------------

  predicate Marker(statement: Statement) {
    statement.Org? || statement.End? || statement.Equ?
  }

  predicate Aligned(statement: Statement) {
    match statement
    case Instruction(_) => true
    case Storage(size, _) => size > 1
    case Block(size, _) => size > 1
    case Data(size, _) => size > 1
    case _ => false
  }

  /** Where a statement starts when the cursor has reached `cursor`. */
  function Place(statement: Statement, symbols: Symbols, cursor: nat): nat {
    if statement.Org? then ValueOf(statement.target, symbols, cursor)
    else if Aligned(statement) && cursor % 2 != 0 then cursor + 1
    else cursor
  }

  /** The layout gives an instruction it cannot encode two bytes. */
  function LayoutLength(statement: Statement, symbols: Symbols, start: nat): nat {
    if !statement.Instruction? then DirectiveLength(statement, symbols)
    else
      match statement.code(symbols, start)
      case Ok(bytes) => |bytes|
      case Err(_) => 2
  }

  /** The layout cursor before statement `k`. */
  function LayoutCursor(p: Program, symbols: Symbols, k: nat): nat
    requires k <= |p.statements|
    decreases k, 0
  {
    if k == 0 then p.Origin()
    else LayoutStart(p, symbols, k - 1) + LayoutLength(p.statements[k - 1], symbols, LayoutStart(p, symbols, k - 1))
  }

  function LayoutStart(p: Program, symbols: Symbols, k: nat): nat
    requires k < |p.statements|
    decreases k, 1
  {
    Place(p.statements[k], symbols, LayoutCursor(p, symbols, k))
  }

  predicate Encodes(statement: Statement, symbols: Symbols, start: nat) {
    statement.Instruction? ==> statement.code(symbols, start).Ok?
  }

  predicate AllEncode(p: Program, symbols: Symbols) {
    forall k :: 0 <= k < |p.statements| ==> Encodes(p.statements[k], symbols, LayoutStart(p, symbols, k))
  }

  /** The symbol table with the first `count` labels set to their layout addresses. */
  function Relabel(p: Program, symbols: Symbols, starts: Symbols, count: nat): Symbols
    requires p.Valid() && count <= |p.labels|
  {
    if count == 0 then symbols
    else
      var entry := p.labels[count - 1];
      Relabel(p, symbols, starts, count - 1)[entry.name := Unsigned(LayoutStart(p, starts, entry.index))]
  }

  /** The symbol table after one layout pass. */
  function Pass(p: Program, symbols: Symbols): Symbols
    requires p.Valid()
  {
    Relabel(p, symbols, symbols, |p.labels|)
  }

  function Passes(p: Program, symbols: Symbols, count: nat): Symbols
    requires p.Valid()
  {
    if count == 0 then symbols else Pass(p, Passes(p, symbols, count - 1))
  }

  // --- Emission ------------------------------------------------------------------------------

  function Zeros(n: nat): (zeros: seq<Byte>)
    ensures |zeros| == n
  {
    seq(n, _ => 0)
  }

  /** A value's big-endian bytes. */
  function Scalar(value: nat, size: DataSize): (bytes: seq<Byte>)
    ensures |bytes| == size
  {
    if size == 1 then [ByteOf(value)]
    else if size == 2 then [ByteOf(value / 0x100), ByteOf(value)]
    else [ByteOf(value / 0x100_0000), ByteOf(value / 0x1_0000), ByteOf(value / 0x100), ByteOf(value)]
  }

  function ByteOf(value: nat): Byte {
    value % 0x100
  }

  function Repeat(bytes: seq<Byte>, n: nat): seq<Byte> {
    if n == 0 then [] else Repeat(bytes, n - 1) + bytes
  }

  lemma {:induction false} RepeatLength(bytes: seq<Byte>, n: nat, size: DataSize)
    requires |bytes| == size
    ensures |Repeat(bytes, n)| == n * size
  {
    if n > 0 {
      RepeatLength(bytes, n - 1, size);
      Distribute(n - 1, 1, size);
    }
  }

  predicate High(unit: Unit) {
    0xd800 <= unit < 0xdc00
  }

  predicate Low(unit: Unit) {
    0xdc00 <= unit < 0xe000
  }

  /** A high surrogate followed by a low one. */
  predicate PairAt(units: seq<Unit>, i: nat) {
    i + 1 < |units| && High(units[i]) && Low(units[i + 1])
  }

  /** The first code unit of each character from position `i` on; a pair is a single character. */
  function CharactersFrom(units: seq<Unit>, i: nat): seq<Unit>
    decreases |units| - i
  {
    if i >= |units| then []
    else [units[i]] + CharactersFrom(units, i + if PairAt(units, i) then 2 else 1)
  }

  function Characters(units: seq<Unit>): seq<Unit> {
    CharactersFrom(units, 0)
  }

  function UnitBytes(units: seq<Unit>, size: DataSize): seq<Byte> {
    if units == [] then []
    else UnitBytes(units[..|units| - 1], size) + Scalar(units[|units| - 1], size)
  }

  lemma {:induction false} UnitBytesLength(units: seq<Unit>, size: DataSize)
    ensures |UnitBytes(units, size)| == |units| * size
  {
    if units != [] {
      UnitBytesLength(units[..|units| - 1], size);
      Distribute(|units| - 1, 1, size);
    }
  }

  function ValueBytes(value: Token, size: DataSize, symbols: Symbols): seq<Byte> {
    if value.Quoted? then UnitBytes(Characters(value.units), size)
    else Scalar(ValueOf(value, symbols, 0), size)
  }

  function DataBytes(values: seq<Token>, size: DataSize, symbols: Symbols): seq<Byte> {
    if values == [] then []
    else
      var last := |values| - 1;
      DataBytes(values[..last], size, symbols) + ValueBytes(values[last], size, symbols)
  }

  /** The bytes of a statement that starts at `start`. */
  function Code(statement: Statement, symbols: Symbols, start: nat): Result<seq<Byte>> {
    match statement
    case Storage(size, count) => Ok(Zeros(ValueOf(count, symbols, 0) * size))
    case Block(size, operands) =>
      Ok(Repeat(Scalar(ValueOf(TokenAt(operands, 1), symbols, 0), size),
                ValueOf(TokenAt(operands, 0), symbols, 0)))
    case Data(size, values) => Ok(DataBytes(values, size, symbols))
    case Instruction(code) => code(symbols, start)
    case _ => Ok([])
  }

  /** The emission cursor before statement `k`, or the error that stopped it. */
  function EmissionCursor(p: Program, symbols: Symbols, k: nat): Result<nat>
    requires k <= |p.statements|
  {
    if k == 0 then Ok(p.Origin())
    else
      var cursor :- EmissionCursor(p, symbols, k - 1);
      var start := Place(p.statements[k - 1], symbols, cursor);
      var bytes :- Code(p.statements[k - 1], symbols, start);
      Ok(start + |bytes|)
  }

  // --- When layout and emission agree ------------------------------------------------------------

  /** No character outside the basic multilingual plane. */
  predicate PairFree(units: seq<Unit>) {
    forall i :: 0 <= i < |units| ==> !PairAt(units, i)
  }

  predicate PairFreeValues(values: seq<Token>) {
    forall v :: 0 <= v < |values| && values[v].Quoted? ==> PairFree(values[v].units)
  }

  predicate PairFreeStatement(statement: Statement) {
    statement.Data? ==> PairFreeValues(statement.values)
  }

  predicate PairFreeProgram(p: Program) {
    forall k :: 0 <= k < |p.statements| ==> PairFreeStatement(p.statements[k])
  }

  lemma {:induction false} CharacterCount(units: seq<Unit>, i: nat)
    requires i <= |units| + 1
    ensures |CharactersFrom(units, i)| <= if i <= |units| then |units| - i else 0
    ensures i <= |units| ==>
              (|CharactersFrom(units, i)| == |units| - i <==> forall j :: i <= j < |units| ==> !PairAt(units, j))
    decreases |units| + 1 - i
  {
    if i < |units| {
      CharacterCount(units, i + if PairAt(units, i) then 2 else 1);
    }
  }

  /** What the emission counts. */
  function Elements(value: Token): nat {
    if value.Quoted? then |Characters(value.units)| else 1
  }

  function CountCharacters(values: seq<Token>): nat {
    if values == [] then 0 else CountCharacters(values[..|values| - 1]) + Elements(values[|values| - 1])
  }

  lemma {:induction false} ValueBytesCount(value: Token, size: DataSize, symbols: Symbols)
    ensures |ValueBytes(value, size, symbols)| == Elements(value) * size
  {
    if value.Quoted? {
      UnitBytesLength(Characters(value.units), size);
    }
  }

  lemma {:induction false} Distribute(a: nat, b: nat, size: DataSize)
    ensures (a + b) * size == a * size + b * size
  {
  }

  lemma {:induction false} DataBytesCount(values: seq<Token>, size: DataSize, symbols: Symbols)
    ensures |DataBytes(values, size, symbols)| == CountCharacters(values) * size
  {
    if values == [] {
      assert 0 * size == 0;
    } else {
      var last := |values| - 1;
      DataBytesCount(values[..last], size, symbols);
      ValueBytesCount(values[last], size, symbols);
      Distribute(CountCharacters(values[..last]), Elements(values[last]), size);
    }
  }

  lemma {:induction false} CountsAgreeExactly(values: seq<Token>)
    ensures CountCharacters(values) <= CountValues(values)
    ensures CountCharacters(values) == CountValues(values) <==> PairFreeValues(values)
  {
    if values != [] {
      var last := |values| - 1;
      CountsAgreeExactly(values[..last]);
      assert values == values[..last] + [values[last]];
      if values[last].Quoted? {
        CharacterCount(values[last].units, 0);
      }
    }
  }

  lemma {:induction false} ScaledEquality(a: nat, b: nat, size: DataSize)
    ensures a * size == b * size <==> a == b
  {
  }

  /** The layout and emission lengths of a statement are the same exactly when
      its strings have no surrogate pairs. */
  lemma {:induction false} LengthsAgreeExactly(statement: Statement, symbols: Symbols, start: nat)
    requires Encodes(statement, symbols, start)
    ensures Code(statement, symbols, start).Ok?
    ensures |Code(statement, symbols, start).value| == LayoutLength(statement, symbols, start)
            <==> PairFreeStatement(statement)
  {
    if statement.Block? {
      RepeatLength(Scalar(ValueOf(TokenAt(statement.operands, 1), symbols, 0), statement.size),
                   ValueOf(TokenAt(statement.operands, 0), symbols, 0), statement.size);
    }
    if statement.Data? {
      DataBytesCount(statement.values, statement.size, symbols);
      CountsAgreeExactly(statement.values);
      ScaledEquality(CountCharacters(statement.values), CountValues(statement.values), statement.size);
    }
  }

  lemma {:induction false} EmissionFollowsLayout(p: Program, symbols: Symbols, k: nat)
    requires k <= |p.statements| && AllEncode(p, symbols)
    requires forall i :: 0 <= i < k ==> PairFreeStatement(p.statements[i])
    ensures EmissionCursor(p, symbols, k) == Ok(LayoutCursor(p, symbols, k))
  {
    hide Place, LayoutLength, Code;
    if k > 0 {
      EmissionFollowsLayout(p, symbols, k - 1);
      LengthsAgreeExactly(p.statements[k - 1], symbols, LayoutStart(p, symbols, k - 1));
    }
  }

  lemma {:induction false} EmissionLeavesLayout(p: Program, symbols: Symbols, k: nat)
    requires k < |p.statements| && Encodes(p.statements[k], symbols, LayoutStart(p, symbols, k))
    requires EmissionCursor(p, symbols, k) == Ok(LayoutCursor(p, symbols, k))
    requires !PairFreeStatement(p.statements[k])
    ensures EmissionCursor(p, symbols, k + 1) != Ok(LayoutCursor(p, symbols, k + 1))
  {
    LengthsAgreeExactly(p.statements[k], symbols, LayoutStart(p, symbols, k));
  }

  /** The emission reaches every statement, and the end, where the layout does. */
  predicate FollowsLayout(p: Program, symbols: Symbols) {
    forall k :: 0 <= k <= |p.statements| ==> AgreesAt(p, symbols, k)
  }

  predicate AgreesAt(p: Program, symbols: Symbols, k: nat)
    requires k <= |p.statements|
  {
    EmissionCursor(p, symbols, k) == Ok(LayoutCursor(p, symbols, k))
  }

  /** With one symbol table, and every instruction encodable where the layout
      puts it, emission follows the layout statement by statement exactly when
      no quoted value holds a surrogate pair. */
  lemma {:induction false} EmissionAgreesExactly(p: Program, symbols: Symbols)
    requires AllEncode(p, symbols)
    ensures FollowsLayout(p, symbols) <==> PairFreeProgram(p)
  {
    if PairFreeProgram(p) {
      forall k | 0 <= k <= |p.statements|
        ensures AgreesAt(p, symbols, k)
      {
        EmissionFollowsLayout(p, symbols, k);
      }
    } else {
      var k :| 0 <= k < |p.statements| && !PairFreeStatement(p.statements[k]);
      if AgreesAt(p, symbols, k) {
        assert Encodes(p.statements[k], symbols, LayoutStart(p, symbols, k));
        EmissionLeavesLayout(p, symbols, k);
        assert !AgreesAt(p, symbols, k + 1);
      }
    }
  }

  // --- When labels and emission agree ---------------------------------------------------------------

  /** Where the emission puts statement `k`. */
  function EmissionStart(p: Program, symbols: Symbols, k: nat): Result<nat>
    requires k < |p.statements|
  {
    var cursor :- EmissionCursor(p, symbols, k);
    Ok(Place(p.statements[k], symbols, cursor))
  }

  /** Every label has the address, cut to 32 bits, where its statement is emitted. */
  predicate LabelsMatch(p: Program, symbols: Symbols)
    requires p.Valid()
  {
    forall l :: 0 <= l < |p.labels| ==> LabelMatches(p, symbols, p.labels[l])
  }

  predicate LabelMatches(p: Program, symbols: Symbols, entry: Label)
    requires entry.index < |p.statements|
  {
    && EmissionStart(p, symbols, entry.index).Ok?
    && entry.name in symbols
    && symbols[entry.name] == Unsigned(EmissionStart(p, symbols, entry.index).value)
  }

  lemma {:induction false} RelabelEntries(p: Program, symbols: Symbols, starts: Symbols, count: nat)
    requires p.Valid() && count <= |p.labels|
    ensures forall l :: 0 <= l < count ==>
              var entry := p.labels[l];
              && entry.name in Relabel(p, symbols, starts, count)
              && Relabel(p, symbols, starts, count)[entry.name] == Unsigned(LayoutStart(p, starts, entry.index))
    ensures forall name :: (forall l :: 0 <= l < count ==> p.labels[l].name != name) ==>
              && (name in Relabel(p, symbols, starts, count) <==> name in symbols)
              && (name in symbols ==> Relabel(p, symbols, starts, count)[name] == symbols[name])
  {
    hide LayoutStart;
    if count > 0 {
      RelabelEntries(p, symbols, starts, count - 1);
    }
  }

  lemma {:induction false} RelabelKeeps(p: Program, symbols: Symbols, starts: Symbols, count: nat)
    requires p.Valid() && count <= |p.labels|
    requires forall l :: 0 <= l < count ==>
               && p.labels[l].name in symbols
               && symbols[p.labels[l].name] == Unsigned(LayoutStart(p, starts, p.labels[l].index))
    ensures Relabel(p, symbols, starts, count) == symbols
  {
    hide LayoutStart;
    if count > 0 {
      RelabelKeeps(p, symbols, starts, count - 1);
    }
  }

  /** The labels are where their bytes begin if and only if one more layout
      pass would leave the symbol table as it is. */
  lemma {:induction false} LabelsMatchExactly(p: Program, symbols: Symbols)
    requires p.Valid() && AllEncode(p, symbols) && PairFreeProgram(p)
    ensures LabelsMatch(p, symbols) <==> Pass(p, symbols) == symbols
  {
    forall k | 0 <= k < |p.statements|
      ensures EmissionStart(p, symbols, k) == Ok(LayoutStart(p, symbols, k))
    {
      EmissionFollowsLayout(p, symbols, k);
    }
    RelabelEntries(p, symbols, symbols, |p.labels|);
    if LabelsMatch(p, symbols) {
      forall l | 0 <= l < |p.labels|
        ensures p.labels[l].name in symbols
        ensures symbols[p.labels[l].name] == Unsigned(LayoutStart(p, symbols, p.labels[l].index))
      {
        assert LabelMatches(p, symbols, p.labels[l]);
      }
      RelabelKeeps(p, symbols, symbols, |p.labels|);
    }
  }

  /** If the fourth pass changes no symbol and reports no error, emission
      succeeds, follows the layout of that pass, and every label is where its bytes begin. */
  lemma {:induction false} StableFourthPass(p: Program)
    requires p.Valid() && PairFreeProgram(p)
    requires Passes(p, p.symbols, 4) == Passes(p, p.symbols, 3)
    requires AllEncode(p, Passes(p, p.symbols, 3))
    ensures var symbols := Passes(p, p.symbols, 4);
      FollowsLayout(p, symbols) && LabelsMatch(p, symbols)
  {
    var symbols := Passes(p, p.symbols, 4);
    EmissionAgreesExactly(p, symbols);
    LabelsMatchExactly(p, symbols);
  }

  // --- A program that never settles --------------------------------------------------------------------

  /** The code is four bytes, whatever the symbols and the address are. */
  ghost predicate TakesFourBytes(code: (Symbols, nat) -> Result<seq<Byte>>) {
    forall symbols, start :: code(symbols, start).Ok? && |code(symbols, start).value| == 4
  }

  /** An instruction, storage as large as the label behind it, and that label. */
  function GrowingProgram(first: (Symbols, nat) -> Result<seq<Byte>>, last: (Symbols, nat) -> Result<seq<Byte>>, x: Value)
    : (p: Program)
    ensures p.Valid()
  {
    Program([Instruction(first), Storage(1, Symbol("x")), Instruction(last)], [Label("x", 2)], map["x" := x],
            None, None, false)
  }

  lemma {:induction false} GrowingStarts(p: Program, symbols: Symbols, x: Value)
    requires |p.statements| == 3 && p.Origin() == 0 && symbols == map["x" := x] && x % 2 == 0
    requires p.statements[0].Instruction? && TakesFourBytes(p.statements[0].code)
    requires p.statements[1] == Storage(1, Symbol("x")) && p.statements[2].Instruction?
    ensures LayoutStart(p, symbols, 2) == 4 + x
  {
    assert LayoutCursor(p, symbols, 0) == 0 && LayoutStart(p, symbols, 0) == 0;
    assert LayoutLength(p.statements[0], symbols, 0) == 4;
    assert LayoutCursor(p, symbols, 1) == 4 && LayoutStart(p, symbols, 1) == 4;
    assert LayoutLength(p.statements[1], symbols, 4) == x;
    assert LayoutCursor(p, symbols, 2) == 4 + x;
  }

  lemma {:induction false} GrowingPass(p: Program, x: Value)
    requires p.Valid() && p.labels == [Label("x", 2)] && |p.statements| == 3 && x + 4 < TWO_TO_32
    requires LayoutStart(p, map["x" := x], 2) == 4 + x
    ensures Pass(p, map["x" := x]) == map["x" := x + 4]
  {
    hide LayoutStart;
    var symbols: Symbols := map["x" := x];
    assert Relabel(p, symbols, symbols, 0) == symbols;
    assert Pass(p, symbols) == symbols["x" := x + 4];
  }

  lemma {:induction false} GrowingStep(first: (Symbols, nat) -> Result<seq<Byte>>, last: (Symbols, nat) -> Result<seq<Byte>>, x: Value, y: Value)
    requires TakesFourBytes(first) && y % 2 == 0 && y + 4 < TWO_TO_32
    ensures Pass(GrowingProgram(first, last, x), map["x" := y]) == map["x" := y + 4]
  {
    hide Pass, TakesFourBytes, LayoutStart;
    var p := GrowingProgram(first, last, x);
    GrowingStarts(p, map["x" := y], y);
    GrowingPass(p, y);
  }

  /** Every layout pass moves the label by four bytes. */
  lemma {:induction false} GrowingPasses(first: (Symbols, nat) -> Result<seq<Byte>>, last: (Symbols, nat) -> Result<seq<Byte>>, x: Value, n: nat)
    requires TakesFourBytes(first) && x % 2 == 0 && x + 4 * n < TWO_TO_32
    ensures var p := GrowingProgram(first, last, x);
      Passes(p, p.symbols, n) == map["x" := x + 4 * n]
  {
    hide Pass, TakesFourBytes;
    if n > 0 {
      GrowingPasses(first, last, x, n - 1);
      GrowingStep(first, last, x, x + 4 * (n - 1));
    }
  }

  /** So it is never where its bytes begin, although everything can be encoded. */
  lemma {:induction false} GrowingLabel(first: (Symbols, nat) -> Result<seq<Byte>>, last: (Symbols, nat) -> Result<seq<Byte>>, x: Value, n: nat)
    requires TakesFourBytes(first) && TakesFourBytes(last) && x % 2 == 0 && x + 4 * n + 4 < TWO_TO_32
    ensures var p := GrowingProgram(first, last, x);
      && Passes(p, p.symbols, n + 1) != Passes(p, p.symbols, n)
      && AllEncode(p, Passes(p, p.symbols, n)) && !LabelsMatch(p, Passes(p, p.symbols, n))
  {
    hide TakesFourBytes, LabelsMatch, Pass, AllEncode;
    var p := GrowingProgram(first, last, x);
    GrowingPasses(first, last, x, n);
    GrowingPasses(first, last, x, n + 1);
    var symbols := Passes(p, p.symbols, n);
    assert symbols["x"] != Passes(p, p.symbols, n + 1)["x"];
    GrowingEncodes(p, symbols);
    LabelsMatchExactly(p, symbols);
  }

  lemma {:induction false} GrowingEncodes(p: Program, symbols: Symbols)
    requires forall k :: 0 <= k < |p.statements| && p.statements[k].Instruction? ==> TakesFourBytes(p.statements[k].code)
    ensures AllEncode(p, symbols)
  {
    hide LayoutStart;
  }

  // --- Programs that settle in one pass -------------------------------------------------------------

  predicate IsLabel(p: Program, name: string) {
    exists l :: 0 <= l < |p.labels| && p.labels[l].name == name
  }

  /** The same symbols, apart from the labels. */
  ghost predicate SameBesideLabels(p: Program, s: Symbols, t: Symbols) {
    forall name :: !IsLabel(p, name) ==>
      && (name in s <==> name in t)
      && (name in s ==> s[name] == t[name])
  }

  /** Label values decide neither where a statement goes nor how long it is. */
  ghost predicate LabelBlind(p: Program, statement: Statement) {
    forall s: Symbols, t: Symbols, cursor: nat | SameBesideLabels(p, s, t) ::
      && Place(statement, s, cursor) == Place(statement, t, cursor)
      && LayoutLength(statement, s, cursor) == LayoutLength(statement, t, cursor)
  }

  ghost predicate LabelBlindProgram(p: Program) {
    forall k :: 0 <= k < |p.statements| ==> LabelBlind(p, p.statements[k])
  }

  predicate NamesNoLabel(p: Program, token: Token) {
    token.Symbol? ==> !IsLabel(p, token.name)
  }

  /** A directive whose address or count names no label is label-blind. */
  lemma {:induction false} DirectiveIsLabelBlind(p: Program, statement: Statement)
    requires !statement.Instruction?
    requires statement.Org? ==> NamesNoLabel(p, statement.target)
    requires statement.Storage? ==> NamesNoLabel(p, statement.count)
    requires statement.Block? ==> NamesNoLabel(p, TokenAt(statement.operands, 0))
    ensures LabelBlind(p, statement)
  {
    forall s: Symbols, t: Symbols, cursor: nat | SameBesideLabels(p, s, t)
      ensures Place(statement, s, cursor) == Place(statement, t, cursor)
      ensures LayoutLength(statement, s, cursor) == LayoutLength(statement, t, cursor)
    {
      match statement
      case Org(target) => assert Expression(target, s) == Expression(target, t);
      case Storage(_, count) => assert Expression(count, s) == Expression(count, t);
      case Block(_, operands) => assert Expression(TokenAt(operands, 0), s) == Expression(TokenAt(operands, 0), t);
      case _ =>
    }
  }

  lemma {:induction false} BlindLayout(p: Program, s: Symbols, t: Symbols, k: nat)
    requires LabelBlindProgram(p) && SameBesideLabels(p, s, t) && k <= |p.statements|
    ensures LayoutCursor(p, s, k) == LayoutCursor(p, t, k)
    ensures k < |p.statements| ==> LayoutStart(p, s, k) == LayoutStart(p, t, k)
    decreases k
  {
    if k > 0 {
      BlindLayout(p, s, t, k - 1);
      assert LabelBlind(p, p.statements[k - 1]);
    }
    if k < |p.statements| {
      assert LabelBlind(p, p.statements[k]);
    }
  }

  lemma {:induction false} PassKeepsOthers(p: Program, symbols: Symbols)
    requires p.Valid()
    ensures SameBesideLabels(p, symbols, Pass(p, symbols))
  {
    RelabelEntries(p, symbols, symbols, |p.labels|);
  }

  /** A program whose layout is blind to its labels reaches its fixed point in
      the first pass, whatever the loader guessed. */
  lemma {:induction false} BlindProgramSettlesAtOnce(p: Program, symbols: Symbols)
    requires p.Valid() && LabelBlindProgram(p)
    ensures Pass(p, Pass(p, symbols)) == Pass(p, symbols)
  {
    var once := Pass(p, symbols);
    PassKeepsOthers(p, symbols);
    RelabelEntries(p, symbols, symbols, |p.labels|);
    forall l | 0 <= l < |p.labels|
      ensures once[p.labels[l].name] == Unsigned(LayoutStart(p, once, p.labels[l].index))
    {
      BlindLayout(p, symbols, once, p.labels[l].index);
    }
    RelabelKeeps(p, once, once, |p.labels|);
  }

  lemma {:induction false} BlindPasses(p: Program, count: nat)
    requires p.Valid() && LabelBlindProgram(p) && count >= 1
    ensures Passes(p, p.symbols, count) == Passes(p, p.symbols, 1)
  {
    if count > 1 {
      BlindPasses(p, count - 1);
      BlindProgramSettlesAtOnce(p, p.symbols);
      assert Passes(p, p.symbols, 1) == Pass(p, Passes(p, p.symbols, 0));
    }
  }

  // --- The bytes that are written ---------------------------------------------------------------------

  /** Data directives cut their addresses to 32 bits; the other writers do not. */
  predicate Wraps(statement: Statement) {
    statement.Block? || statement.Data?
  }

  function Target(address: nat, wraps: bool): nat {
    if wraps then Unsigned(address) else address
  }

  function WriteBytes(output: ByteMap, address: nat, bytes: seq<Byte>, wraps: bool): ByteMap {
    if bytes == [] then output
    else
      var last := |bytes| - 1;
      WriteBytes(output, address, bytes[..last], wraps).Set(Target(address + last, wraps), bytes[last])
  }

  datatype Entry = Entry(address: nat, length: nat, statement: nat)

  datatype Emission = Emission(output: ByteMap, cursor: nat, sourceMap: seq<Entry>, loadAddress: nat)

  function Begin(p: Program): Emission {
    Emission(ByteMap([], map[]), p.Origin(), [], p.Origin())
  }

  function Min(a: nat, b: nat): nat {
    if a <= b then a else b
  }

  /** The alignment byte in front of an odd instruction or wide datum. */
  function Padded(e: Emission, statement: Statement): Emission {
    if Aligned(statement) && e.cursor % 2 != 0 then
      e.(output := e.output.Set(e.cursor, 0), cursor := e.cursor + 1)
    else e
  }

  function EmitOne(e: Emission, p: Program, k: nat, symbols: Symbols): Result<Emission>
    requires k < |p.statements|
  {
    var statement := p.statements[k];
    if statement.Org? then
      var cursor := Place(statement, symbols, e.cursor);
      Ok(e.(cursor := cursor, loadAddress := Min(e.loadAddress, cursor)))
    else if Marker(statement) then Ok(e)
    else
      var padded := Padded(e, statement);
      var bytes :- Code(statement, symbols, padded.cursor);
      Ok(Emission(
           WriteBytes(padded.output, padded.cursor, bytes, Wraps(statement)),
           padded.cursor + |bytes|,
           padded.sourceMap + if bytes == [] then [] else [Entry(padded.cursor, |bytes|, k)],
           padded.loadAddress))
  }

  function Emit(p: Program, symbols: Symbols, k: nat): Result<Emission>
    requires k <= |p.statements|
  {
    if k == 0 then Ok(Begin(p))
    else
      var e :- Emit(p, symbols, k - 1);
      EmitOne(e, p, k - 1, symbols)
  }

  lemma {:induction false} WriteBytesKeepsValid(output: ByteMap, address: nat, bytes: seq<Byte>, wraps: bool)
    requires output.Valid()
    ensures WriteBytes(output, address, bytes, wraps).Valid()
  {
    if bytes != [] {
      var last := |bytes| - 1;
      WriteBytesKeepsValid(output, address, bytes[..last], wraps);
      WriteBytes(output, address, bytes[..last], wraps).SetKeepsValid(Target(address + last, wraps), bytes[last]);
    }
  }

  lemma {:induction false} EmitOneKeepsValid(e: Emission, p: Program, k: nat, symbols: Symbols)
    requires k < |p.statements| && e.output.Valid() && EmitOne(e, p, k, symbols).Ok?
    ensures EmitOne(e, p, k, symbols).value.output.Valid()
  {
    var statement := p.statements[k];
    if !Marker(statement) {
      var padded := Padded(e, statement);
      e.output.SetKeepsValid(e.cursor, 0);
      WriteBytesKeepsValid(padded.output, padded.cursor, Code(statement, symbols, padded.cursor).value, Wraps(statement));
    }
  }

  lemma {:induction false} EmitOneCursor(e: Emission, p: Program, k: nat, symbols: Symbols)
    requires k < |p.statements|
    ensures var start := Place(p.statements[k], symbols, e.cursor);
      var code := Code(p.statements[k], symbols, start);
      && (EmitOne(e, p, k, symbols).Ok? <==> code.Ok?)
      && (code.Ok? ==> EmitOne(e, p, k, symbols).value.cursor == start + |code.value|)
  {
  }

  lemma {:induction false} EmitCursor(p: Program, symbols: Symbols, k: nat)
    requires k <= |p.statements|
    ensures Emit(p, symbols, k).Ok? <==> EmissionCursor(p, symbols, k).Ok?
    ensures Emit(p, symbols, k).Ok? ==>
              && Emit(p, symbols, k).value.cursor == EmissionCursor(p, symbols, k).value
              && Emit(p, symbols, k).value.output.Valid()
  {
    hide EmitOne, Place, Code;
    if k > 0 {
      EmitCursor(p, symbols, k - 1);
      if Emit(p, symbols, k - 1).Ok? {
        EmitOneCursor(Emit(p, symbols, k - 1).value, p, k - 1, symbols);
        if Emit(p, symbols, k).Ok? {
          EmitOneKeepsValid(Emit(p, symbols, k - 1).value, p, k - 1, symbols);
        }
      }
    }
  }

  // --- What the output holds in the end ------------------------------------------------------------------

  /** `code` lies in `bytes` from address `start` on. */
  ghost predicate Lies(code: seq<Byte>, start: nat, bytes: map<nat, Byte>) {
    forall j :: 0 <= j < |code| ==> HasByte(bytes, start + j, code[j])
  }

  predicate HasByte(bytes: map<nat, Byte>, a: nat, byte: Byte) {
    a in bytes && bytes[a] == byte
  }

  /** Two outputs agree below an address. */
  ghost predicate SameBelow(m: map<nat, Byte>, m': map<nat, Byte>, limit: nat) {
    forall a: nat :: a < limit ==> (a in m' <==> a in m) && (a in m ==> m'[a] == m[a])
  }

  ghost predicate KeysBelow(bytes: map<nat, Byte>, limit: nat) {
    forall a: nat :: a in bytes ==> a < limit
  }

  lemma {:induction false} AppendByte(code: seq<Byte>, byte: Byte, start: nat, m: map<nat, Byte>)
    requires Lies(code, start, m) && KeysBelow(m, start + |code|)
    ensures Lies(code + [byte], start, m[start + |code| := byte])
    ensures KeysBelow(m[start + |code| := byte], start + |code| + 1)
    ensures SameBelow(m, m[start + |code| := byte], start + |code|)
  {
    var m' := m[start + |code| := byte];
    forall j | 0 <= j < |code| + 1
      ensures HasByte(m', start + j, (code + [byte])[j])
    {
      if j < |code| {
        assert HasByte(m, start + j, code[j]);
      }
    }
  }

  lemma {:induction false} WrittenBytes(output: ByteMap, address: nat, bytes: seq<Byte>, wraps: bool)
    requires address + |bytes| <= TWO_TO_32
    requires KeysBelow(output.bytes, address)
    ensures var m := WriteBytes(output, address, bytes, wraps).bytes;
      Lies(bytes, address, m) && SameBelow(output.bytes, m, address) && KeysBelow(m, address + |bytes|)
  {
    if bytes != [] {
      var last := |bytes| - 1;
      var front := bytes[..last];
      var before := WriteBytes(output, address, front, wraps);
      WrittenBytes(output, address, front, wraps);
      TargetFits(address + last, wraps);
      assert WriteBytes(output, address, bytes, wraps).bytes == before.bytes[address + last := bytes[last]];
      AppendByte(front, bytes[last], address, before.bytes);
      assert front + [bytes[last]] == bytes;
    }
  }

  lemma {:induction false} TargetFits(address: nat, wraps: bool)
    requires address < TWO_TO_32
    ensures Target(address, wraps) == address
  {
  }

  /** No ORG moves the cursor backwards. */
  predicate Forward(p: Program, symbols: Symbols) {
    forall k :: 0 <= k < |p.statements| && p.statements[k].Org? && EmissionCursor(p, symbols, k).Ok? ==>
      Place(p.statements[k], symbols, EmissionCursor(p, symbols, k).value)
      >= EmissionCursor(p, symbols, k).value
  }

  /** A zero lies in front of a statement that was aligned. */
  predicate HoldsPadding(statement: Statement, cursor: nat, bytes: map<nat, Byte>) {
    Aligned(statement) && cursor % 2 != 0 ==> HasByte(bytes, cursor, 0)
  }

  /** Statement `k`'s code lies in the output where it was emitted, behind its padding. */
  ghost predicate HoldsCode(p: Program, symbols: Symbols, k: nat, bytes: map<nat, Byte>)
    requires k < |p.statements|
  {
    && EmissionCursor(p, symbols, k).Ok?
    && HoldsPadding(p.statements[k], EmissionCursor(p, symbols, k).value, bytes)
    && EmissionStart(p, symbols, k).Ok? &&
    var code := Code(p.statements[k], symbols, EmissionStart(p, symbols, k).value);
    code.Ok? && Lies(code.value, EmissionStart(p, symbols, k).value, bytes)
  }

  lemma {:induction false} PaddedKeeps(e: Emission, statement: Statement)
    requires KeysBelow(e.output.bytes, e.cursor)
    ensures KeysBelow(Padded(e, statement).output.bytes, Padded(e, statement).cursor)
    ensures SameBelow(e.output.bytes, Padded(e, statement).output.bytes, e.cursor)
    ensures Padded(e, statement).cursor >= e.cursor
  {
  }

  /** One statement keeps what lies below the cursor and writes only above it. */
  lemma {:induction false} EmitOneKeeps(e: Emission, p: Program, k: nat, symbols: Symbols)
    requires k < |p.statements| && EmitOne(e, p, k, symbols).Ok?
    requires EmitOne(e, p, k, symbols).value.cursor <= TWO_TO_32
    requires KeysBelow(e.output.bytes, e.cursor)
    requires Place(p.statements[k], symbols, e.cursor) >= e.cursor
    ensures var e' := EmitOne(e, p, k, symbols).value;
      && KeysBelow(e'.output.bytes, e'.cursor)
      && SameBelow(e.output.bytes, e'.output.bytes, e.cursor)
      && Lies(Code(p.statements[k], symbols, Place(p.statements[k], symbols, e.cursor)).value,
              Place(p.statements[k], symbols, e.cursor), e'.output.bytes)
      && HoldsPadding(p.statements[k], e.cursor, e'.output.bytes)
  {
    hide WriteBytes;
    var statement := p.statements[k];
    EmitOneCursor(e, p, k, symbols);
    if !Marker(statement) {
      var padded := Padded(e, statement);
      PaddedKeeps(e, statement);
      WrittenBytes(padded.output, padded.cursor, Code(statement, symbols, padded.cursor).value, Wraps(statement));
    }
  }

  lemma {:induction false} LaterBytesDoNotTouch(code: seq<Byte>, start: nat, m: map<nat, Byte>, m': map<nat, Byte>, limit: nat)
    requires Lies(code, start, m) && SameBelow(m, m', limit) && KeysBelow(m, limit)
    ensures Lies(code, start, m')
  {
    forall j | 0 <= j < |code|
      ensures HasByte(m', start + j, code[j])
    {
      assert HasByte(m, start + j, code[j]);
    }
  }

  lemma {:induction false} HeldCodeStays(p: Program, symbols: Symbols, k: nat, m: map<nat, Byte>, m': map<nat, Byte>, limit: nat)
    requires k < |p.statements|
    requires HoldsCode(p, symbols, k, m) && SameBelow(m, m', limit) && KeysBelow(m, limit)
    ensures HoldsCode(p, symbols, k, m')
  {
    var start := EmissionStart(p, symbols, k).value;
    LaterBytesDoNotTouch(Code(p.statements[k], symbols, start).value, start, m, m', limit);
  }

  /** All code emitted so far is in place, and nothing lies above the cursor. */
  ghost predicate Settled(p: Program, symbols: Symbols, k: nat, e: Emission)
    requires k <= |p.statements|
  {
    && KeysBelow(e.output.bytes, e.cursor)
    && (forall i :: 0 <= i < k ==> HoldsCode(p, symbols, i, e.output.bytes))
  }

  lemma {:induction false} EmitStepForward(p: Program, symbols: Symbols, k: nat, e: Emission)
    requires k < |p.statements| && Emit(p, symbols, k) == Ok(e) && EmitOne(e, p, k, symbols).Ok?
    requires Forward(p, symbols)
    ensures EmissionCursor(p, symbols, k) == Ok(e.cursor)
    ensures EmissionStart(p, symbols, k) == Ok(Place(p.statements[k], symbols, e.cursor))
    ensures e.cursor <= Place(p.statements[k], symbols, e.cursor) <= EmitOne(e, p, k, symbols).value.cursor
    ensures Code(p.statements[k], symbols, Place(p.statements[k], symbols, e.cursor)).Ok?
  {
    EmitCursor(p, symbols, k);
    EmitOneCursor(e, p, k, symbols);
  }

  lemma {:induction false} SettledStays(p: Program, symbols: Symbols, k: nat, e: Emission, m': map<nat, Byte>)
    requires k <= |p.statements| && Settled(p, symbols, k, e) && SameBelow(e.output.bytes, m', e.cursor)
    ensures forall i :: 0 <= i < k ==> HoldsCode(p, symbols, i, m')
  {
    forall i | 0 <= i < k
      ensures HoldsCode(p, symbols, i, m')
    {
      HeldCodeStays(p, symbols, i, e.output.bytes, m', e.cursor);
    }
  }

  lemma {:induction false} SettledStep(p: Program, symbols: Symbols, k: nat, e: Emission)
    requires k < |p.statements| && Emit(p, symbols, k) == Ok(e) && EmitOne(e, p, k, symbols).Ok?
    requires Forward(p, symbols) && EmitOne(e, p, k, symbols).value.cursor <= TWO_TO_32
    requires Settled(p, symbols, k, e)
    ensures Settled(p, symbols, k + 1, EmitOne(e, p, k, symbols).value)
  {
    EmitStepForward(p, symbols, k, e);
    EmitOneKeeps(e, p, k, symbols);
    SettledStays(p, symbols, k, e, EmitOne(e, p, k, symbols).value.output.bytes);
  }

  /** As long as no ORG goes back and addresses stay below 2^32, every
      statement's code is in the output at the address where it was emitted. */
  lemma {:induction false} EmittedCodeStays(p: Program, symbols: Symbols, k: nat, e: Emission)
    requires k <= |p.statements| && Emit(p, symbols, k) == Ok(e)
    requires e.cursor <= TWO_TO_32
    requires Forward(p, symbols)
    ensures Settled(p, symbols, k, e)
  {
    hide EmitOne, HoldsCode, SameBelow;
    if k > 0 {
      var before := Emit(p, symbols, k - 1).value;
      assert EmitOne(before, p, k - 1, symbols) == Ok(e);
      EmitStepForward(p, symbols, k - 1, before);
      EmittedCodeStays(p, symbols, k - 1, before);
      SettledStep(p, symbols, k - 1, before);
    }
  }

  /** A program without surrogate pairs that is stable in the fourth pass, goes
      only forwards and stays below 2^32 is emitted without an error, and its
      image holds every statement's code where the labels say it is. */
  lemma {:induction false} StableProgramIsEmitted(p: Program, k: nat)
    requires p.Valid() && PairFreeProgram(p) && k < |p.statements|
    requires Passes(p, p.symbols, 4) == Passes(p, p.symbols, 3)
    requires AllEncode(p, Passes(p, p.symbols, 3))
    requires Forward(p, Passes(p, p.symbols, 4))
    requires LayoutCursor(p, Passes(p, p.symbols, 4), |p.statements|) <= TWO_TO_32
    ensures var symbols := Passes(p, p.symbols, 4);
      var emission := Emit(p, symbols, |p.statements|);
      && emission.Ok?
      && KeysBelow(emission.value.output.bytes, TWO_TO_32)
      && EmissionStart(p, symbols, k) == Ok(LayoutStart(p, symbols, k))
      && HoldsCode(p, symbols, k, emission.value.output.bytes)
  {
    hide PairFreeProgram, AllEncode, Forward, Emit, EmissionCursor, LayoutCursor, HoldsCode, Place, Pass;
    var symbols := Passes(p, p.symbols, 4);
    StableFourthPass(p);
    assert AgreesAt(p, symbols, |p.statements|) && AgreesAt(p, symbols, k);
    EmitCursor(p, symbols, |p.statements|);
    EmittedCodeStays(p, symbols, |p.statements|, Emit(p, symbols, |p.statements|).value);
  }
}
