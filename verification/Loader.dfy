/** The program loader: its forward pass over the source lines, its main pass,
    and when their symbol tables agree. */
module Loader {
  import opened Outcomes
  import opened Source
  import opened ProgramImage
  import A = Assembler

  /** A label waiting for content, with the line it was written on. */
  datatype Mark = Mark(name: string, line: nat)

  datatype Content =
    | Equ(operand: Token)
    | Org(operand: Token)
    | End(entry: Option<string>)
    | Data(size: DataSize, values: seq<Token>)
    | Block(size: DataSize, operands: seq<Token>)
    | Storage(size: DataSize, count: Token)
    | Code

  /** A parsed line; a blank one has neither labels nor content. */
  datatype Line = Line(labels: seq<Mark>, content: Option<Content>)

  datatype LoadError =
    | UnknownOperand(line: nat)
    | UnknownLabel(operand: Token, line: nat)
    | DuplicateLabel(mark: Mark)

  type Table = map<string, nat>

  predicate IsEnd(line: Line) {
    line.content.Some? && line.content.value.End?
  }

  /** Lines before the first END. */
  predicate Active(lines: seq<Line>, n: nat) {
    n <= |lines| && forall k :: 0 <= k < n ==> !IsEnd(lines[k])
  }

  // --- Operands ------------------------------------------------------------------------

  /** Unlike the assembler, the loader keeps only the low byte of a quoted character. */
  function Resolve(token: Token, table: Table): Option<nat> {
    match token
    case Number(value) => Some(value)
    case Quoted(units) => Some(if units == [] then 0 else units[0] % 0x100)
    case Symbol(name) => if name in table then Some(table[name]) else None
    case Blank => None
  }

  /** Own entries first, then the inherited ones. */
  function Over(own: Table, inherited: Table): Table {
    inherited + own
  }

  function At(tokens: seq<Token>, k: nat, otherwise: Token): Token {
    if k < |tokens| then tokens[k] else otherwise
  }

  /** Elements a data directive defines; empty operands are skipped. */
  function Elements(values: seq<Token>): nat {
    if values == [] then 0
    else
      var last := |values| - 1;
      Elements(values[..last])
      + (match values[last] case Blank => 0 case Quoted(units) => |units| case _ => 1)
  }

  /** Elements whose value the main pass can write. */
  function Written(values: seq<Token>, table: Table): nat {
    if values == [] then 0
    else
      var last := |values| - 1;
      Written(values[..last], table)
      + match values[last]
        case Quoted(units) => |units|
        case token => if Resolve(token, table).Some? then 1 else 0
  }

  function Unresolved(values: seq<Token>, table: Table, line: nat): seq<LoadError> {
    if values == [] then []
    else
      var last := |values| - 1;
      Unresolved(values[..last], table, line)
      + if values[last].Blank? || Resolve(values[last], table).Some? then [] else [UnknownLabel(values[last], line)]
  }

  lemma {:induction false} EverythingWritten(values: seq<Token>, table: Table, line: nat)
    requires Unresolved(values, table, line) == []
    ensures Written(values, table) == Elements(values)
  {
    if values != [] {
      EverythingWritten(values[..|values| - 1], table, line);
    }
  }

  // --- The forward pass --------------------------------------------------------------------

  datatype Forward = Forward(table: Table, address: nat, pending: seq<Mark>)

  function Define(table: Table, marks: seq<Mark>, value: nat): Table {
    if marks == [] then table
    else Define(table, marks[..|marks| - 1], value)[marks[|marks| - 1].name := value]
  }

  function ForwardLength(content: Content, table: Table): nat {
    match content
    case Data(size, values) => size * Elements(values)
    case Block(size, operands) => Resolve(At(operands, 0, Number(0)), table).GetOr(0) * size
    case Storage(size, count) => Resolve(count, table).GetOr(0) * size
    case Code => 4
    case _ => 0
  }

  function ForwardStep(f: Forward, line: Line): Forward
    requires !IsEnd(line)
  {
    var attached := f.pending + line.labels;
    match line.content
    case None => f.(pending := attached)
    case Some(Equ(operand)) =>
      var value := Resolve(operand, f.table);
      if value.Some? && |attached| == 1 then
        Forward(f.table[attached[0].name := Unsigned(value.value)], f.address, [])
      else f.(pending := [])
    case Some(Org(operand)) =>
      var value := Resolve(operand, f.table);
      var address := if value.Some? then Unsigned(value.value) else f.address;
      Forward(Define(f.table, attached, address), address, [])
    case Some(content) =>
      var table := Define(f.table, attached, f.address);
      Forward(table, f.address + ForwardLength(content, table), [])
  }

  function ForwardRun(lines: seq<Line>, n: nat): Forward
    requires Active(lines, n)
  {
    if n == 0 then Forward(map[], 0, []) else ForwardStep(ForwardRun(lines, n - 1), lines[n - 1])
  }

  method DefineAll(table: Table, marks: seq<Mark>, value: nat) returns (defined: Table)
    ensures defined == Define(table, marks, value)
  {
    defined := table;
    for i := 0 to |marks|
      invariant defined == Define(table, marks[..i], value)
    {
      assert marks[..i + 1][..i] == marks[..i];
      defined := defined[marks[i].name := value];
    }
    assert marks[..|marks|] == marks;
  }

  /** Where the loop over the lines stops. */
  ghost predicate StopsAt(lines: seq<Line>, n: nat) {
    Active(lines, n) && (n == |lines| || IsEnd(lines[n]))
  }

  method CollectForwardSymbolAddresses(lines: seq<Line>) returns (table: Table, ghost n: nat)
    ensures StopsAt(lines, n) && table == ForwardRun(lines, n).table
  {
    table := map[];
    var address: nat := 0;
    var pending: seq<Mark> := [];
    var index := 0;
    while index < |lines| && !IsEnd(lines[index])
      invariant index <= |lines| && Active(lines, index)
      invariant Forward(table, address, pending) == ForwardRun(lines, index)
    {
      var line := lines[index];
      var attached := pending + line.labels;
      index := index + 1;
      pending := if line.content.None? then attached else [];
      if line.content.Some? {
        var content := line.content.value;
        if content.Equ? {
          var value := Resolve(content.operand, table);
          if value.Some? && |attached| == 1 {
            table := table[attached[0].name := Unsigned(value.value)];
          }
        } else if content.Org? {
          var value := Resolve(content.operand, table);
          if value.Some? {
            address := Unsigned(value.value);
          }
          table := DefineAll(table, attached, address);
        } else {
          table := DefineAll(table, attached, address);
          address := address + ForwardLength(content, table);
        }
      }
    }
    n := index;
  }

  // --- The main pass -------------------------------------------------------------------------

  datatype Load = Load(
    instructions: seq<Content>,
    labels: seq<A.Label>,
    symbols: Table,
    address: nat,
    origin: Option<Value>,
    entry: Option<string>,
    pending: seq<Mark>,
    errors: seq<LoadError>,
    exception: Option<LoadError>)

  const BEGIN := Load([], [], map[], 0, None, None, [], [], None)

  /** Registers labels at an address; a name that is taken stops the load. */
  function Register(l: Load, marks: seq<Mark>, value: nat): Load
    decreases |marks|
  {
    if marks == [] || l.exception.Some? then l
    else if marks[0].name in l.symbols then l.(exception := Some(DuplicateLabel(marks[0])))
    else
      Register(l.(symbols := l.symbols[marks[0].name := Unsigned(value)],
                  labels := l.labels + [A.Label(marks[0].name, |l.instructions|)]),
               marks[1..], value)
  }

  function Advance(l: Load, content: Content, number: nat, table: Table): Load {
    match content
    case Data(size, values) =>
      l.(address := l.address + size * Written(values, table), errors := l.errors + Unresolved(values, table, number))
    case Block(size, operands) =>
      var count, value := Resolve(At(operands, 0, Blank), table), Resolve(At(operands, 1, Number(0)), table);
      if count.None? || value.None? then l.(errors := l.errors + [UnknownOperand(number)])
      else l.(address := l.address + count.value * size)
    case Storage(size, count) =>
      var units := Resolve(count, table);
      if units.None? then l.(errors := l.errors + [UnknownLabel(count, number)])
      else l.(address := l.address + units.value * size)
    case _ => l.(address := l.address + 4)
  }

  function Push(l: Load, content: Content): Load {
    l.(instructions := l.instructions + [content])
  }

  function LoadEqu(l: Load, operand: Token, attached: seq<Mark>, number: nat, forward: Table): Load {
    var value := Resolve(operand, Over(l.symbols, forward));
    if |attached| != 1 then l.(errors := l.errors + [UnknownOperand(number)])
    else if value.None? then l.(errors := l.errors + [UnknownLabel(operand, number)])
    else if attached[0].name in l.symbols then l.(exception := Some(DuplicateLabel(attached[0])))
    else Push(l.(symbols := l.symbols[attached[0].name := Unsigned(value.value)]), Equ(operand))
  }

  function LoadOrg(l: Load, operand: Token, attached: seq<Mark>, number: nat, forward: Table): Load {
    var value := Resolve(operand, Over(l.symbols, forward));
    if value.None? then l.(errors := l.errors + [UnknownLabel(operand, number)])
    else
      var address := Unsigned(value.value);
      var origin := if l.origin.None? then Some(address) else l.origin;
      var registered := Register(l.(address := address, origin := origin), attached, address);
      if registered.exception.Some? then registered else Push(registered, Org(operand))
  }

  function LoadOther(l: Load, content: Content, attached: seq<Mark>, number: nat, forward: Table): Load {
    var registered := Register(l, attached, l.address);
    if registered.exception.Some? then registered
    else Push(Advance(registered, content, number, Over(registered.symbols, forward)), content)
  }

  function LoadStep(l: Load, line: Line, number: nat, forward: Table): Load
    requires !IsEnd(line)
  {
    var attached := l.pending + line.labels;
    if l.exception.Some? then l
    else
      match line.content
      case None => l.(pending := attached)
      case Some(Equ(operand)) => LoadEqu(l.(pending := []), operand, attached, number, forward)
      case Some(Org(operand)) => LoadOrg(l.(pending := []), operand, attached, number, forward)
      case Some(content) => LoadOther(l.(pending := []), content, attached, number, forward)
  }

  function LoadRun(lines: seq<Line>, n: nat, forward: Table): Load
    requires Active(lines, n)
  {
    if n == 0 then BEGIN else LoadStep(LoadRun(lines, n - 1, forward), lines[n - 1], n, forward)
  }

  /** The line END, if the load reaches it, names the entry label and is kept. */
  function Finish(l: Load, lines: seq<Line>, n: nat): Load
    requires n <= |lines|
  {
    if n < |lines| && IsEnd(lines[n]) && l.exception.None? then
      Push(l.(pending := [], entry := lines[n].content.value.entry), lines[n].content.value)
    else l
  }

  method RegisterAll(l: Load, marks: seq<Mark>, value: nat) returns (registered: Load)
    requires l.exception.None?
    ensures registered == Register(l, marks, value)
  {
    registered := l;
    for i := 0 to |marks|
      invariant registered.exception.None?
      invariant Register(registered, marks[i..], value) == Register(l, marks, value)
    {
      assert marks[i..][1..] == marks[i + 1..];
      if marks[i].name in registered.symbols {
        return registered.(exception := Some(DuplicateLabel(marks[i])));
      }
      registered := registered.(symbols := registered.symbols[marks[i].name := Unsigned(value)],
        labels := registered.labels + [A.Label(marks[i].name, |registered.instructions|)]);
    }
  }

  method LoadOrgLine(l: Load, operand: Token, attached: seq<Mark>, number: nat, forward: Table) returns (loaded: Load)
    requires l.exception.None?
    ensures loaded == LoadOrg(l, operand, attached, number, forward)
  {
    var value := Resolve(operand, Over(l.symbols, forward));
    if value.None? {
      return l.(errors := l.errors + [UnknownLabel(operand, number)]);
    }
    var address := Unsigned(value.value);
    loaded := l.(address := address);
    if loaded.origin.None? {
      loaded := loaded.(origin := Some(address));
    }
    loaded := RegisterAll(loaded, attached, address);
    if loaded.exception.None? {
      loaded := Push(loaded, Org(operand));
    }
  }

  method LoadOtherLine(l: Load, content: Content, attached: seq<Mark>, number: nat, forward: Table)
    returns (loaded: Load)
    requires l.exception.None?
    ensures loaded == LoadOther(l, content, attached, number, forward)
  {
    loaded := RegisterAll(l, attached, l.address);
    if loaded.exception.None? {
      loaded := Push(Advance(loaded, content, number, Over(loaded.symbols, forward)), content);
    }
  }

  method LoadProgramSource(lines: seq<Line>) returns (l: Load, ghost forward: Table, ghost n: nat)
    ensures StopsAt(lines, n) && forward == ForwardRun(lines, n).table
    ensures l == Finish(LoadRun(lines, n, forward), lines, n)
  {
    var table;
    table, n := CollectForwardSymbolAddresses(lines);
    forward := table;
    l := BEGIN;
    var index := 0;
    while index < |lines| && !IsEnd(lines[index]) && l.exception.None?
      invariant index <= n
      invariant l == LoadRun(lines, index, table)
    {
      var line := lines[index];
      var attached := l.pending + line.labels;
      index := index + 1;
      l := l.(pending := if line.content.None? then attached else []);
      if line.content.Some? {
        var content := line.content.value;
        if content.Equ? {
          l := LoadEqu(l, content.operand, attached, index, table);
        } else if content.Org? {
          l := LoadOrgLine(l, content.operand, attached, index, table);
        } else {
          l := LoadOtherLine(l, content, attached, index, table);
        }
      }
    }
    StoppedLoad(lines, index, n, table);
    l := Finish(l, lines, index);
  }

  lemma {:induction false} StoppedLoad(lines: seq<Line>, k: nat, n: nat, forward: Table)
    requires k <= n && Active(lines, n) && (k == n || LoadRun(lines, k, forward).exception.Some?)
    ensures LoadRun(lines, n, forward) == LoadRun(lines, k, forward)
    decreases n
  {
    if k < n {
      StoppedLoad(lines, k, n - 1, forward);
    }
  }

  // --- Errors and exceptions stay ------------------------------------------------------------------

  predicate Clean(l: Load) {
    l.errors == [] && l.exception.None?
  }

  lemma {:induction false} RegisterKeeps(l: Load, marks: seq<Mark>, value: nat)
    ensures var r := Register(l, marks, value);
      && r.errors == l.errors && r.address == l.address && r.pending == l.pending && r.instructions == l.instructions
      && (r.exception.None? ==> l.exception.None?)
    decreases |marks|
  {
    if marks != [] && l.exception.None? && marks[0].name !in l.symbols {
      RegisterKeeps(l.(symbols := l.symbols[marks[0].name := Unsigned(value)],
                       labels := l.labels + [A.Label(marks[0].name, |l.instructions|)]), marks[1..], value);
    }
  }

  lemma {:induction false} CleanStep(l: Load, line: Line, number: nat, forward: Table)
    requires !IsEnd(line) && Clean(LoadStep(l, line, number, forward))
    ensures Clean(l)
  {
    if l.exception.None? && line.content.Some? {
      var attached := l.pending + line.labels;
      match line.content.value {
        case Equ(_) =>
        case Org(operand) =>
          var value := Resolve(operand, Over(l.symbols, forward));
          if value.Some? {
            var address := Unsigned(value.value);
            var origin := if l.origin.None? then Some(address) else l.origin;
            RegisterKeeps(l.(pending := [], address := address, origin := origin), attached, address);
          }
        case _ => RegisterKeeps(l.(pending := []), attached, l.address);
      }
    }
  }

  // --- The two passes agree ---------------------------------------------------------------------------

  /** The main table holds the forward table's values, cut to 32 bits. */
  ghost predicate SameTables(own: Table, table: Table) {
    && own.Keys == table.Keys
    && forall name :: name in own ==> own[name] == Unsigned(table[name])
  }

  ghost predicate Agrees(l: Load, f: Forward) {
    l.pending == f.pending && l.address == f.address && SameTables(l.symbols, f.table)
  }

  /** A count that is known by then and below 2^32, or one that is unknown and zero in the end. */
  predicate AgreeingCount(count: Token, table: Table, final: Table) {
    if Resolve(count, table).Some? then Resolve(count, table).value < TWO_TO_32 else Resolve(count, final) == Some(0)
  }

  /** What the forward pass must know when it reads a line, unless what it does
      instead happens to be right. */
  predicate AgreeingLine(f: Forward, line: Line, final: Table) {
    match line.content
    case Some(Equ(operand)) => Resolve(operand, f.table).Some?
    case Some(Org(operand)) =>
      || Resolve(operand, f.table).Some?
      || (Resolve(operand, final).Some? && Unsigned(Resolve(operand, final).value) == f.address)
    case Some(Block(_, operands)) => AgreeingCount(At(operands, 0, Number(0)), TableAt(f, line), final)
    case Some(Storage(_, count)) => AgreeingCount(count, TableAt(f, line), final)
    case _ => true
  }

  /** The forward table once a line's labels have been defined. */
  function TableAt(f: Forward, line: Line): Table {
    Define(f.table, f.pending + line.labels, f.address)
  }

  predicate AgreeingLines(lines: seq<Line>, n: nat, final: Table)
    requires Active(lines, n)
  {
    forall k :: 0 <= k < n ==> AgreeingAt(lines, k, final)
  }

  predicate AgreeingAt(lines: seq<Line>, k: nat, final: Table)
    requires Active(lines, k) && k < |lines|
  {
    AgreeingLine(ForwardRun(lines, k), lines[k], final)
  }

  lemma {:induction false} UnsignedOfValue(n: nat)
    requires n < TWO_TO_32
    ensures Unsigned(n) == n
  {
  }

  /** A resolvable operand has the same value in both passes, up to 2^32. */
  lemma {:induction false} SameOperand(token: Token, own: Table, table: Table, forward: Table)
    requires SameTables(own, table) && Resolve(token, table).Some?
    ensures Resolve(token, Over(own, forward)).Some?
    ensures Unsigned(Resolve(token, Over(own, forward)).value) == Unsigned(Resolve(token, table).value)
    ensures Resolve(token, table).value < TWO_TO_32 ==> Resolve(token, Over(own, forward)) == Resolve(token, table)
  {
    if token.Symbol? {
      assert token.name in own;
      UnsignedOfValue(own[token.name]);
    }
  }

  /** An operand that the forward table does not know has its value from the final table. */
  lemma {:induction false} LateOperand(token: Token, own: Table, table: Table, forward: Table)
    requires SameTables(own, table) && Resolve(token, table).None?
    ensures Resolve(token, Over(own, forward)) == Resolve(token, forward)
  {
  }

  lemma {:induction false} DefineFirst(table: Table, mark: Mark, marks: seq<Mark>, value: nat)
    ensures Define(table[mark.name := value], marks, value) == Define(table, [mark] + marks, value)
  {
    if marks != [] {
      DefineFirst(table, mark, marks[..|marks| - 1], value);
      assert ([mark] + marks)[..|marks|] == [mark] + marks[..|marks| - 1];
    } else {
      assert [mark] + marks == [mark];
      assert [mark][..0] == [];
    }
  }

  lemma {:induction false} RegisterAgrees(l: Load, marks: seq<Mark>, value: nat, table: Table)
    requires SameTables(l.symbols, table) && Register(l, marks, value).exception.None?
    ensures SameTables(Register(l, marks, value).symbols, Define(table, marks, value))
    decreases |marks|
  {
    RegisterKeeps(l, marks, value);
    if marks != [] {
      DefineFirst(table, marks[0], marks[1..], value);
      assert marks == [marks[0]] + marks[1..];
      RegisterAgrees(l.(symbols := l.symbols[marks[0].name := Unsigned(value)],
                        labels := l.labels + [A.Label(marks[0].name, |l.instructions|)]),
                     marks[1..], value, table[marks[0].name := value]);
    }
  }

  lemma {:induction false} EquAgreesExactly(l: Load, f: Forward, line: Line, number: nat, forward: Table)
    requires Agrees(l, f) && line.content.Some? && line.content.value.Equ?
    requires Clean(LoadStep(l, line, number, forward))
    ensures Agrees(LoadStep(l, line, number, forward), ForwardStep(f, line)) <==> AgreeingLine(f, line, forward)
  {
    var operand := line.content.value.operand;
    var name := (l.pending + line.labels)[0].name;
    assert name !in f.table && name in LoadStep(l, line, number, forward).symbols;
    if Resolve(operand, f.table).Some? {
      SameOperand(operand, l.symbols, f.table, forward);
    }
  }

  lemma {:induction false} OrgAgreesExactly(l: Load, f: Forward, line: Line, number: nat, forward: Table)
    requires Agrees(l, f) && line.content.Some? && line.content.value.Org?
    requires Clean(LoadStep(l, line, number, forward))
    ensures Agrees(LoadStep(l, line, number, forward), ForwardStep(f, line)) <==> AgreeingLine(f, line, forward)
  {
    hide Define;
    var operand := line.content.value.operand;
    var attached := l.pending + line.labels;
    if Resolve(operand, f.table).Some? {
      SameOperand(operand, l.symbols, f.table, forward);
    } else {
      LateOperand(operand, l.symbols, f.table, forward);
    }
    var address := Unsigned(Resolve(operand, Over(l.symbols, forward)).value);
    var l' := l.(pending := [], address := address, origin := if l.origin.None? then Some(address) else l.origin);
    RegisterKeeps(l', attached, address);
    RegisterAgrees(l', attached, address, f.table);
  }

  /** A count that is right leads to the same address, and another one does not. */
  lemma {:induction false} CountAgreesExactly(count: Token, size: DataSize, own: Table, table: Table, forward: Table)
    requires SameTables(own, table) && Resolve(count, Over(own, forward)).Some?
    ensures Resolve(count, Over(own, forward)).value * size == Resolve(count, table).GetOr(0) * size
            <==> AgreeingCount(count, table, forward)
  {
    if Resolve(count, table).Some? {
      SameOperand(count, own, table, forward);
      if count.Symbol? {
        UnsignedIsModulo(table[count.name]);
      }
    } else {
      LateOperand(count, own, table, forward);
    }
  }

  lemma {:induction false} AdvanceAgreesExactly(l: Load, f: Forward, line: Line, number: nat, forward: Table)
    requires SameTables(l.symbols, TableAt(f, line)) && line.content.Some? && !IsEnd(line)
    requires !line.content.value.Equ? && !line.content.value.Org?
    requires Advance(l, line.content.value, number, Over(l.symbols, forward)).errors == []
    ensures Advance(l, line.content.value, number, Over(l.symbols, forward)).address
            == l.address + ForwardLength(line.content.value, TableAt(f, line))
            <==> AgreeingLine(f, line, forward)
  {
    hide TableAt;
    match line.content.value {
      case Data(size, values) => EverythingWritten(values, Over(l.symbols, forward), number);
      case Block(size, operands) =>
        CountAgreesExactly(At(operands, 0, Number(0)), size, l.symbols, TableAt(f, line), forward);
      case Storage(size, count) => CountAgreesExactly(count, size, l.symbols, TableAt(f, line), forward);
      case Code =>
    }
  }

  lemma {:induction false} AdvanceAddress(l: Load, content: Content, number: nat, table: Table)
    ensures Advance(l, content, number, table) ==
            l.(address := Advance(l, content, number, table).address, errors := Advance(l, content, number, table).errors)
  {
  }

  lemma {:induction false} OtherAgreesExactly(l: Load, f: Forward, line: Line, number: nat, forward: Table)
    requires Agrees(l, f) && line.content.Some? && !IsEnd(line)
    requires !line.content.value.Equ? && !line.content.value.Org?
    requires Clean(LoadStep(l, line, number, forward))
    ensures Agrees(LoadStep(l, line, number, forward), ForwardStep(f, line)) <==> AgreeingLine(f, line, forward)
  {
    hide Define, Advance, ForwardLength, AgreeingLine;
    var l' := l.(pending := []);
    var attached := l.pending + line.labels;
    var registered := Register(l', attached, l.address);
    RegisterKeeps(l', attached, l.address);
    RegisterAgrees(l', attached, l.address, f.table);
    AdvanceAgreesExactly(registered, f, line, number, forward);
    AdvanceAddress(registered, line.content.value, number, Over(registered.symbols, forward));
  }

  /** From agreement, a line read without an error leads to agreement exactly if it is an agreeing one. */
  lemma {:induction false} StepAgreesExactly(l: Load, f: Forward, line: Line, number: nat, forward: Table)
    requires !IsEnd(line) && Agrees(l, f) && Clean(LoadStep(l, line, number, forward))
    ensures Agrees(LoadStep(l, line, number, forward), ForwardStep(f, line)) <==> AgreeingLine(f, line, forward)
  {
    CleanStep(l, line, number, forward);
    if line.content.Some? {
      match line.content.value {
        case Equ(_) => EquAgreesExactly(l, f, line, number, forward);
        case Org(_) => OrgAgreesExactly(l, f, line, number, forward);
        case _ => OtherAgreesExactly(l, f, line, number, forward);
      }
    }
  }

  /** Both passes have the same address, waiting labels and names before each of the first `n` lines and after them. */
  ghost predicate AgreeThroughout(lines: seq<Line>, n: nat, forward: Table)
    requires Active(lines, n)
  {
    forall k :: 0 <= k <= n ==> AgreeAfter(lines, k, forward)
  }

  ghost predicate AgreeAfter(lines: seq<Line>, k: nat, forward: Table)
    requires Active(lines, k)
  {
    Agrees(LoadRun(lines, k, forward), ForwardRun(lines, k))
  }

  /** For a load with no error or exception, the passes agree line by line if
      and only if every line is an agreeing one. */
  lemma {:induction false} PassesAgreeExactly(lines: seq<Line>, n: nat, forward: Table)
    requires Active(lines, n) && Clean(LoadRun(lines, n, forward))
    ensures AgreeThroughout(lines, n, forward) <==> AgreeingLines(lines, n, forward)
  {
    hide AgreeingLine, Agrees, LoadStep, ForwardStep, Clean;
    if n == 0 {
      assert AgreeAfter(lines, 0, forward) by { BeginningAgrees(); }
    } else {
      CleanStep(LoadRun(lines, n - 1, forward), lines[n - 1], n, forward);
      PassesAgreeExactly(lines, n - 1, forward);
      assert AgreeThroughout(lines, n, forward) <==> AgreeThroughout(lines, n - 1, forward) && AgreeAfter(lines, n, forward);
      assert AgreeingLines(lines, n, forward) <==> AgreeingLines(lines, n - 1, forward) && AgreeingAt(lines, n - 1, forward);
      if AgreeThroughout(lines, n - 1, forward) {
        assert AgreeAfter(lines, n - 1, forward);
        StepAgreesExactly(LoadRun(lines, n - 1, forward), ForwardRun(lines, n - 1), lines[n - 1], n, forward);
      }
    }
  }

  lemma {:induction false} BeginningAgrees()
    ensures Agrees(BEGIN, Forward(map[], 0, []))
  {
  }

  // --- What the agreement gives -----------------------------------------------------------------------

  /** Registered names keep their values. */
  predicate Extends(own: Table, own': Table) {
    forall name :: name in own ==> name in own' && own'[name] == own[name]
  }

  lemma {:induction false} RegisterExtends(l: Load, marks: seq<Mark>, value: nat)
    ensures Extends(l.symbols, Register(l, marks, value).symbols)
    decreases |marks|
  {
    if marks != [] && l.exception.None? && marks[0].name !in l.symbols {
      RegisterExtends(l.(symbols := l.symbols[marks[0].name := Unsigned(value)],
                         labels := l.labels + [A.Label(marks[0].name, |l.instructions|)]), marks[1..], value);
    }
  }

  lemma {:induction false} StepExtends(l: Load, line: Line, number: nat, forward: Table)
    requires !IsEnd(line)
    ensures Extends(l.symbols, LoadStep(l, line, number, forward).symbols)
  {
    if l.exception.None? && line.content.Some? {
      var attached := l.pending + line.labels;
      match line.content.value {
        case Equ(_) =>
        case Org(operand) =>
          var value := Resolve(operand, Over(l.symbols, forward));
          if value.Some? {
            var address := Unsigned(value.value);
            var origin := if l.origin.None? then Some(address) else l.origin;
            RegisterExtends(l.(pending := [], address := address, origin := origin), attached, address);
          }
        case _ => RegisterExtends(l.(pending := []), attached, l.address);
      }
    }
  }

  lemma {:induction false} RunExtends(lines: seq<Line>, k: nat, n: nat, forward: Table)
    requires Active(lines, n) && k <= n
    ensures Extends(LoadRun(lines, k, forward).symbols, LoadRun(lines, n, forward).symbols)
    decreases n
  {
    hide LoadStep;
    if k < n {
      RunExtends(lines, k, n - 1, forward);
      StepExtends(LoadRun(lines, n - 1, forward), lines[n - 1], n, forward);
    }
  }

  /** A forward reference reads, at any line, the value the symbol has in the
      end, cut to 32 bits; uncut exactly when the forward value fits. */
  lemma {:induction false} ForwardReferencesAreFinal(lines: seq<Line>, n: nat, k: nat, name: string)
    requires StopsAt(lines, n) && k <= n && AgreeingLines(lines, n, ForwardRun(lines, n).table)
    requires Clean(LoadRun(lines, n, ForwardRun(lines, n).table))
    ensures var forward := ForwardRun(lines, n).table;
      var final := LoadRun(lines, n, forward).symbols;
      var lookup := Over(LoadRun(lines, k, forward).symbols, forward);
      && (name in forward <==> name in final)
      && (name in lookup <==> name in final)
      && (name in final ==>
            && Unsigned(lookup[name]) == final[name]
            && (forward[name] == final[name] <==> forward[name] < TWO_TO_32))
  {
    var forward := ForwardRun(lines, n).table;
    PassesAgreeExactly(lines, n, forward);
    assert AgreeAfter(lines, n, forward);
    RunExtends(lines, k, n, forward);
    if name in forward {
      UnsignedIsModulo(forward[name]);
      UnsignedOfValue(Unsigned(forward[name]));
    }
  }

  /** Four bytes of code, storage whose size is a later label, and that label. */
  function LateCount(): (lines: seq<Line>)
    ensures |lines| == 3 && Active(lines, 3)
  {
    [Line([], Some(Code)), Line([], Some(Storage(1, Symbol("x")))), Line([Mark("x", 3)], Some(Code))]
  }

  lemma {:induction false} LateForward()
    ensures ForwardRun(LateCount(), 2) == Forward(map[], 4, [])
    ensures ForwardRun(LateCount(), 3) == Forward(map["x" := 4], 8, [])
  {
    var lines := LateCount();
    assert [] + lines[0].labels == [] && [] + lines[1].labels == [] && [] + lines[2].labels == [Mark("x", 3)];
    assert ForwardRun(lines, 1) == ForwardStep(ForwardRun(lines, 0), lines[0]) == Forward(map[], 4, []);
    assert Define(map[], [Mark("x", 3)], 4) == map["x" := 4] by {
      assert [Mark("x", 3)][..0] == [];
    }
  }

  lemma {:induction false} LateLoadStarts(forward: Table)
    ensures LoadStep(BEGIN, LateCount()[0], 1, forward) == BEGIN.(instructions := [Code], address := 4)
  {
    assert [] + LateCount()[0].labels == [];
  }

  lemma {:induction false} LateStorageLoads()
    ensures LoadStep(BEGIN.(instructions := [Code], address := 4), LateCount()[1], 2, map["x" := 4])
            == BEGIN.(instructions := [Code, Storage(1, Symbol("x"))], address := 8)
  {
    assert [] + LateCount()[1].labels == [];
  }

  function LateLoad(): Load {
    Load([Code, Storage(1, Symbol("x")), Code], [A.Label("x", 2)], map["x" := 8], 12, None, None, [], [], None)
  }

  lemma {:induction false} LateLabelLoads()
    ensures LoadStep(BEGIN.(instructions := [Code, Storage(1, Symbol("x"))], address := 8), LateCount()[2], 3, map["x" := 4])
            == LateLoad()
  {
    assert [] + LateCount()[2].labels == [Mark("x", 3)];
    assert [Mark("x", 3)][1..] == [];
  }

  /** Without the condition on operands the passes can part with no error: the
      forward pass skips a DS whose count is a later label, the main pass does not. */
  lemma {:induction false} LateCountParts()
    ensures StopsAt(LateCount(), 3)
    ensures ForwardRun(LateCount(), 3).table == map["x" := 4]
    ensures LoadRun(LateCount(), 3, map["x" := 4]) == LateLoad()
    ensures Clean(LateLoad()) && LateLoad().symbols == map["x" := 8]
  {
    var lines, forward := LateCount(), map["x" := 4];
    LateForward();
    LateLoadStarts(forward);
    LateStorageLoads();
    LateLabelLoads();
    hide LoadStep, ForwardRun, ForwardStep, LateCount;
    assert LoadRun(lines, 0, forward) == BEGIN;
    assert LoadRun(lines, 1, forward) == LoadStep(BEGIN, lines[0], 1, forward);
    assert LoadRun(lines, 2, forward) == LoadStep(LoadRun(lines, 1, forward), lines[1], 2, forward);
    assert LoadRun(lines, 3, forward) == LoadStep(LoadRun(lines, 2, forward), lines[2], 3, forward);
  }

  // --- What the assembler is given -----------------------------------------------------------------------

  /** Every label has its own name and, once the line is complete, a statement. */
  predicate LabelsValid(l: Load) {
    && (forall i :: 0 <= i < |l.labels| ==>
          l.labels[i].name in l.symbols && l.labels[i].index < |l.instructions| + if l.exception.Some? then 1 else 0)
    && (forall i, j :: 0 <= i < j < |l.labels| ==> l.labels[i].name != l.labels[j].name)
  }

  /** The same, for a line whose statement is still to come. */
  predicate LabelsPending(l: Load) {
    && (forall i :: 0 <= i < |l.labels| ==> l.labels[i].name in l.symbols && l.labels[i].index <= |l.instructions|)
    && (forall i, j :: 0 <= i < j < |l.labels| ==> l.labels[i].name != l.labels[j].name)
  }

  lemma {:induction false} RegisterLabels(l: Load, marks: seq<Mark>, value: nat)
    requires LabelsPending(l)
    ensures LabelsPending(Register(l, marks, value))
    ensures Register(l, marks, value).instructions == l.instructions
    decreases |marks|
  {
    if marks != [] && l.exception.None? && marks[0].name !in l.symbols {
      RegisterLabels(l.(symbols := l.symbols[marks[0].name := Unsigned(value)],
                        labels := l.labels + [A.Label(marks[0].name, |l.instructions|)]), marks[1..], value);
    }
  }

  lemma {:induction false} AdvanceKeeps(l: Load, content: Content, number: nat, table: Table)
    ensures var r := Advance(l, content, number, table);
      r.instructions == l.instructions && r.labels == l.labels && r.symbols == l.symbols && r.exception == l.exception
  {
  }

  lemma {:induction false} OtherLabels(l: Load, content: Content, attached: seq<Mark>, number: nat, forward: Table)
    requires LabelsPending(l) && l.exception.None?
    ensures LabelsValid(LoadOther(l, content, attached, number, forward))
  {
    hide Register, Advance;
    RegisterLabels(l, attached, l.address);
    var registered := Register(l, attached, l.address);
    AdvanceKeeps(registered, content, number, Over(registered.symbols, forward));
  }

  lemma {:induction false} StepLabels(l: Load, line: Line, number: nat, forward: Table)
    requires !IsEnd(line) && LabelsValid(l)
    ensures LabelsValid(LoadStep(l, line, number, forward))
  {
    hide Register, LoadOther;
    if l.exception.None? && line.content.Some? {
      var attached := l.pending + line.labels;
      var content := line.content.value;
      if content.Org? {
        var value := Resolve(content.operand, Over(l.symbols, forward));
        if value.Some? {
          var address := Unsigned(value.value);
          var origin := if l.origin.None? then Some(address) else l.origin;
          RegisterLabels(l.(pending := [], address := address, origin := origin), attached, address);
        }
      } else if !content.Equ? {
        OtherLabels(l.(pending := []), content, attached, number, forward);
      }
    }
  }

  lemma {:induction false} RunLabels(lines: seq<Line>, n: nat, forward: Table)
    requires Active(lines, n)
    ensures LabelsValid(LoadRun(lines, n, forward))
  {
    hide LoadStep;
    if n > 0 {
      RunLabels(lines, n - 1, forward);
      StepLabels(LoadRun(lines, n - 1, forward), lines[n - 1], n, forward);
    }
  }

  /** A loaded line as the assembler sees it, given the encoder for its instruction. */
  function ToStatement(content: Content, code: (Symbols, nat) -> Result<seq<Byte>>): A.Statement {
    match content
    case Equ(_) => A.Equ
    case Org(operand) => A.Org(operand)
    case End(_) => A.End
    case Data(size, values) => A.Data(size, values)
    case Block(size, operands) => A.Block(size, operands)
    case Storage(size, count) => A.Storage(size, count)
    case Code => A.Instruction(code)
  }

  /** The program the assembler starts from; `encode` stands for the decoded instructions. */
  function ToProgram(l: Load, encode: nat -> (Symbols, nat) -> Result<seq<Byte>>): A.Program {
    A.Program(seq(|l.instructions|, k requires 0 <= k < |l.instructions| => ToStatement(l.instructions[k], encode(k))),
              l.labels, map name | name in l.symbols :: Unsigned(l.symbols[name]), l.origin, l.entry, !Clean(l))
  }

  /** A load without exception always gives the assembler a valid program. */
  lemma {:induction false} LoadedProgramIsValid(lines: seq<Line>, n: nat, forward: Table, encode: nat -> (Symbols, nat) -> Result<seq<Byte>>)
    requires StopsAt(lines, n)
    requires Finish(LoadRun(lines, n, forward), lines, n).exception.None?
    ensures ToProgram(Finish(LoadRun(lines, n, forward), lines, n), encode).Valid()
  {
    RunLabels(lines, n, forward);
  }

  // --- A program that never settles ------------------------------------------------------------------------

  /** What the assembler is given for these lines. */
  function LateProgram(encode: nat -> (Symbols, nat) -> Result<seq<Byte>>): A.Program {
    ToProgram(LoadRun(LateCount(), 3, ForwardRun(LateCount(), 3).table), encode)
  }

  lemma {:induction false} LateProgramIs(encode: nat -> (Symbols, nat) -> Result<seq<Byte>>)
    ensures LateProgram(encode) == A.GrowingProgram(encode(0), encode(2), 8)
  {
    LateCountParts();
    hide LoadRun, ForwardRun;
    var p := LateProgram(encode);
    assert p.symbols == map["x" := 8];
    assert |p.statements| == 3;
    assert p.statements[0] == A.Instruction(encode(0)) && p.statements[2] == A.Instruction(encode(2));
    assert p.statements[1] == A.Storage(1, Symbol("x"));
    assert p.statements == A.GrowingProgram(encode(0), encode(2), 8).statements;
  }

  /** Loaded without an error, its label moves in every layout pass, and after
      the fourth, which is the last, it is not where its bytes begin. */
  lemma {:induction false} LateLabelIsWrong(encode: nat -> (Symbols, nat) -> Result<seq<Byte>>)
    requires A.TakesFourBytes(encode(0)) && A.TakesFourBytes(encode(2))
    ensures var p := LateProgram(encode);
      && p.Valid() && !p.loadErrors && A.AllEncode(p, A.Passes(p, p.symbols, 4))
      && A.Passes(p, p.symbols, 4) != A.Passes(p, p.symbols, 3)
      && !A.LabelsMatch(p, A.Passes(p, p.symbols, 4))
  {
    hide LateProgram, A.Passes, A.LabelsMatch, A.AllEncode;
    LateProgramIs(encode);
    A.GrowingLabel(encode(0), encode(2), 8, 3);
    A.GrowingLabel(encode(0), encode(2), 8, 4);
    assert A.GrowingProgram(encode(0), encode(2), 8).Valid();
  }
}
