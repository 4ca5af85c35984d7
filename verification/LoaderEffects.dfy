/** What the loader makes of one line: statements, symbols, labels, addresses and errors. */
module LoaderEffects {
  import opened Outcomes
  import opened Source
  import opened Loader
  import A = Assembler

  // --- Operands --------------------------------------------------------------------------------------

  /** A number is itself, a symbol its value if it is known, and a quoted text the low byte of its first unit. */
  lemma {:induction false} ResolveMeans(token: Token, table: Table)
    ensures token.Number? ==> Resolve(token, table) == Some(token.value)
    ensures token.Symbol? && token.name in table ==> Resolve(token, table) == Some(table[token.name])
    ensures token.Quoted? && token.units != [] ==> Resolve(token, table) == Some(token.units[0] % 0x100)
    ensures token.Quoted? && token.units == [] ==> Resolve(token, table) == Some(0)
    ensures token.Blank? || (token.Symbol? && token.name !in table) ==> Resolve(token, table) == None
  {
  }

  /** Own symbols hide inherited ones. */
  lemma {:induction false} LookupMeans(own: Table, inherited: Table, name: string)
    ensures name in Over(own, inherited) <==> name in own || name in inherited
    ensures name in own ==> Over(own, inherited)[name] == own[name]
    ensures name !in own && name in inherited ==> Over(own, inherited)[name] == inherited[name]
  {
  }

  /** The loader and the assembler agree on the length of data exactly if no
      value is empty, which the assembler counts and the loader does not. */
  lemma {:induction false} DataLengthsAgreeExactly(size: DataSize, values: seq<Token>, symbols: Symbols)
    ensures size * Elements(values) == A.DirectiveLength(A.Data(size, values), symbols)
            <==> forall v :: 0 <= v < |values| ==> !values[v].Blank?
  {
    ElementsCount(values);
    A.ScaledEquality(Elements(values), A.CountValues(values), size);
  }

  lemma {:induction false} ElementsCount(values: seq<Token>)
    ensures Elements(values) <= A.CountValues(values)
    ensures Elements(values) == A.CountValues(values) <==> forall v :: 0 <= v < |values| ==> !values[v].Blank?
  {
    if values != [] {
      ElementsCount(values[..|values| - 1]);
      assert forall v :: 0 <= v < |values| - 1 ==> values[..|values| - 1][v] == values[v];
    }
  }

  // --- Labels ----------------------------------------------------------------------------------------

  /** The names are new and all different. */
  predicate AreNew(marks: seq<Mark>, table: Table) {
    && (forall i :: 0 <= i < |marks| ==> marks[i].name !in table)
    && (forall i, j :: 0 <= i < j < |marks| ==> marks[i].name != marks[j].name)
  }

  /** Each of the names labels the statement to come, and has the value. */
  ghost predicate AreRegistered(before: Load, after: Load, marks: seq<Mark>, value: nat) {
    && (forall i :: 0 <= i < |marks| ==> marks[i].name in after.symbols && after.symbols[marks[i].name] == Unsigned(value))
    && (forall name :: (forall i :: 0 <= i < |marks| ==> marks[i].name != name) ==>
          && (name in after.symbols <==> name in before.symbols)
          && (name in before.symbols ==> after.symbols[name] == before.symbols[name]))
    && |after.labels| == |before.labels| + |marks| && after.labels[..|before.labels|] == before.labels
    && (forall i :: 0 <= i < |marks| ==>
          after.labels[|before.labels| + i] == A.Label(marks[i].name, |before.instructions|))
  }

  function RegisteredOne(l: Load, mark: Mark, value: nat): Load {
    l.(symbols := l.symbols[mark.name := Unsigned(value)], labels := l.labels + [A.Label(mark.name, |l.instructions|)])
  }

  /** Registering succeeds exactly for new names, and then registers each of them. */
  lemma {:induction false} RegisterMeans(l: Load, marks: seq<Mark>, value: nat)
    requires l.exception.None?
    ensures Register(l, marks, value).exception.None? <==> AreNew(marks, l.symbols)
    ensures Register(l, marks, value).exception.None? ==> AreRegistered(l, Register(l, marks, value), marks, value)
    decreases |marks|
  {
    if marks != [] && marks[0].name !in l.symbols {
      var next := RegisteredOne(l, marks[0], value);
      RegisterMeans(next, marks[1..], value);
      NewNext(marks, l.symbols, Unsigned(value));
      if Register(l, marks, value).exception.None? {
        RegisteredNext(l, Register(l, marks, value), marks, value);
      }
    }
  }

  lemma {:induction false} NewNext(marks: seq<Mark>, table: Table, value: nat)
    requires marks != [] && marks[0].name !in table
    ensures AreNew(marks, table) <==> AreNew(marks[1..], table[marks[0].name := value])
  {
    var tail := marks[1..];
    assert forall i :: 0 <= i < |tail| ==> tail[i] == marks[i + 1];
    if AreNew(tail, table[marks[0].name := value]) {
      forall i | 0 <= i < |marks|
        ensures marks[i].name !in table
        ensures i > 0 ==> marks[0].name != marks[i].name
      {
        if i > 0 {
          assert tail[i - 1].name !in table[marks[0].name := value];
        }
      }
      forall i, j | 0 <= i < j < |marks|
        ensures marks[i].name != marks[j].name
      {
        if i > 0 {
          assert tail[i - 1].name != tail[j - 1].name;
        }
      }
    }
  }

  lemma {:induction false} RegisteredNames(l: Load, after: Load, marks: seq<Mark>, value: nat)
    requires marks != [] && AreNew(marks, l.symbols)
    requires AreRegistered(RegisteredOne(l, marks[0], value), after, marks[1..], value)
    ensures forall i :: 0 <= i < |marks| ==> marks[i].name in after.symbols && after.symbols[marks[i].name] == Unsigned(value)
  {
    var tail := marks[1..];
    assert forall i :: 0 <= i < |tail| ==> tail[i] == marks[i + 1];
    assert forall i :: 0 <= i < |tail| ==> tail[i].name != marks[0].name;
    forall i | 0 <= i < |marks|
      ensures marks[i].name in after.symbols && after.symbols[marks[i].name] == Unsigned(value)
    {
      if i > 0 {
        assert marks[i] == tail[i - 1];
      }
    }
  }

  lemma {:induction false} RegisteredOthers(l: Load, after: Load, marks: seq<Mark>, value: nat, name: string)
    requires marks != [] && AreRegistered(RegisteredOne(l, marks[0], value), after, marks[1..], value)
    requires forall i :: 0 <= i < |marks| ==> marks[i].name != name
    ensures name in after.symbols <==> name in l.symbols
    ensures name in l.symbols ==> after.symbols[name] == l.symbols[name]
  {
    var tail := marks[1..];
    assert marks[0].name != name;
    assert forall i :: 0 <= i < |tail| ==> tail[i].name != name;
  }

  lemma {:induction false} RegisteredLabels(l: Load, after: Load, marks: seq<Mark>, value: nat)
    requires marks != [] && AreRegistered(RegisteredOne(l, marks[0], value), after, marks[1..], value)
    ensures |after.labels| == |l.labels| + |marks| && after.labels[..|l.labels|] == l.labels
    ensures forall i :: 0 <= i < |marks| ==> after.labels[|l.labels| + i] == A.Label(marks[i].name, |l.instructions|)
  {
    var next, tail := RegisteredOne(l, marks[0], value), marks[1..];
    assert after.labels[..|l.labels|] == after.labels[..|next.labels|][..|l.labels|];
    forall i | 0 <= i < |marks|
      ensures after.labels[|l.labels| + i] == A.Label(marks[i].name, |l.instructions|)
    {
      if i > 0 {
        assert marks[i] == tail[i - 1];
        assert after.labels[|next.labels| + (i - 1)] == A.Label(tail[i - 1].name, |next.instructions|);
      } else {
        assert after.labels[..|next.labels|][|l.labels|] == next.labels[|l.labels|];
      }
    }
  }

  lemma {:induction false} RegisteredNext(l: Load, after: Load, marks: seq<Mark>, value: nat)
    requires marks != [] && AreNew(marks, l.symbols)
    requires AreRegistered(RegisteredOne(l, marks[0], value), after, marks[1..], value)
    ensures AreRegistered(l, after, marks, value)
  {
    RegisteredNames(l, after, marks, value);
    RegisteredLabels(l, after, marks, value);
    forall name | forall i :: 0 <= i < |marks| ==> marks[i].name != name
      ensures name in after.symbols <==> name in l.symbols
      ensures name in l.symbols ==> after.symbols[name] == l.symbols[name]
    {
      RegisteredOthers(l, after, marks, value, name);
    }
    hide RegisteredOne, AreNew, Unsigned;
  }

  // --- Lines ---------------------------------------------------------------------------------------------

  /** How far a directive or instruction takes the address, if all it needs is known. */
  function Room(content: Content, table: Table): nat {
    match content
    case Data(size, values) => size * Elements(values)
    case Block(size, operands) => Resolve(At(operands, 0, Blank), table).GetOr(0) * size
    case Storage(size, count) => Resolve(count, table).GetOr(0) * size
    case Code => 4
    case _ => 0
  }

  /** All that a directive needs is known: the elements of DC, count and fill of
      DCB, and the count of DS. */
  predicate IsKnown(content: Content, table: Table) {
    match content
    case Data(_, values) => forall v :: 0 <= v < |values| ==> values[v].Blank? || Resolve(values[v], table).Some?
    case Block(_, operands) =>
      && Resolve(At(operands, 0, Blank), table).Some?
      && (|operands| > 1 ==> Resolve(operands[1], table).Some?)
    case Storage(_, count) => Resolve(count, table).Some?
    case _ => true
  }

  lemma {:induction false} UnresolvedExactly(values: seq<Token>, table: Table, line: nat)
    ensures Unresolved(values, table, line) == []
            <==> forall v :: 0 <= v < |values| ==> values[v].Blank? || Resolve(values[v], table).Some?
  {
    if values != [] {
      UnresolvedExactly(values[..|values| - 1], table, line);
      assert forall v :: 0 <= v < |values| - 1 ==> values[..|values| - 1][v] == values[v];
    }
  }

  lemma {:induction false} AdvanceMeans(l: Load, content: Content, number: nat, table: Table)
    requires l.errors == [] && !content.Equ? && !content.Org? && !content.End?
    ensures Advance(l, content, number, table).errors == [] <==> IsKnown(content, table)
    ensures IsKnown(content, table) ==> Advance(l, content, number, table) == l.(address := l.address + Room(content, table))
  {
    hide Resolve;
    match content {
      case Data(size, values) =>
        UnresolvedExactly(values, table, number);
        if IsKnown(content, table) {
          EverythingWritten(values, table, number);
        }
      case Block(_, operands) => ResolveMeans(Number(0), table);
      case _ =>
    }
  }

  /** What a line has to satisfy to be read without an error or exception. */
  predicate IsGood(l: Load, line: Line, forward: Table) {
    var attached := l.pending + line.labels;
    match line.content
    case None => true
    case Some(Equ(operand)) =>
      |attached| == 1 && attached[0].name !in l.symbols && Resolve(operand, Over(l.symbols, forward)).Some?
    case Some(Org(operand)) => AreNew(attached, l.symbols) && Resolve(operand, Over(l.symbols, forward)).Some?
    case Some(content) =>
      && AreNew(attached, l.symbols)
      && IsKnown(content, Over(Register(l.(pending := []), attached, l.address).symbols, forward))
  }

  lemma {:induction false} OtherLine(l: Load, content: Content, attached: seq<Mark>, number: nat, forward: Table)
    requires Clean(l) && l.pending == [] && !content.Equ? && !content.Org? && !content.End?
    ensures Clean(LoadOther(l, content, attached, number, forward))
            <==> AreNew(attached, l.symbols) && IsKnown(content, Over(Register(l, attached, l.address).symbols, forward))
    ensures Clean(LoadOther(l, content, attached, number, forward)) ==>
              var t := LoadOther(l, content, attached, number, forward);
              && AreRegistered(l, t, attached, l.address)
              && t.address == l.address + Room(content, Over(t.symbols, forward))
              && t.instructions == l.instructions + [content]
              && t.pending == [] && t.origin == l.origin && t.entry == l.entry
  {
    hide Register, Advance, IsKnown, Room, AreNew, Over, AreRegistered;
    RegisterMeans(l, attached, l.address);
    RegisterKeeps(l, attached, l.address);
    RegisterKeepsRest(l, attached, l.address);
    var registered := Register(l, attached, l.address);
    if registered.exception.None? {
      AdvanceMeans(registered, content, number, Over(registered.symbols, forward));
      AdvanceKeeps(registered, content, number, Over(registered.symbols, forward));
      RegisteredParts(l, registered, LoadOther(l, content, attached, number, forward), attached, l.address);
    }
  }

  lemma {:induction false} RegisteredParts(l: Load, a: Load, b: Load, marks: seq<Mark>, value: nat)
    requires a.exception.None? ==> AreRegistered(l, a, marks, value)
    requires b.symbols == a.symbols && b.labels == a.labels
    ensures a.exception.None? ==> AreRegistered(l, b, marks, value)
  {
  }

  lemma {:induction false} RegisterKeepsRest(l: Load, marks: seq<Mark>, value: nat)
    ensures Register(l, marks, value).origin == l.origin && Register(l, marks, value).entry == l.entry
    decreases |marks|
  {
    if marks != [] && l.exception.None? && marks[0].name !in l.symbols {
      RegisterKeepsRest(RegisteredOne(l, marks[0], value), marks[1..], value);
    }
  }

  lemma {:induction false} OrgLine(l: Load, operand: Token, attached: seq<Mark>, number: nat, forward: Table)
    requires Clean(l) && l.pending == []
    ensures Clean(LoadOrg(l, operand, attached, number, forward))
            <==> AreNew(attached, l.symbols) && Resolve(operand, Over(l.symbols, forward)).Some?
    ensures Clean(LoadOrg(l, operand, attached, number, forward)) ==>
              var t := LoadOrg(l, operand, attached, number, forward);
              var address := Unsigned(Resolve(operand, Over(l.symbols, forward)).value);
              && AreRegistered(l, t, attached, address)
              && t.address == address && t.origin == (if l.origin.None? then Some(address) else l.origin)
              && t.instructions == l.instructions + [Org(operand)] && t.pending == [] && t.entry == l.entry
  {
    hide Register, AreNew, Over, Resolve;
    var value := Resolve(operand, Over(l.symbols, forward));
    if value.Some? {
      var address := Unsigned(value.value);
      var moved := l.(address := address, origin := if l.origin.None? then Some(address) else l.origin);
      RegisterMeans(moved, attached, address);
      RegisterKeeps(moved, attached, address);
      RegisterKeepsRest(moved, attached, address);
    }
  }

  /** A line is read without an error or exception exactly if it is good. Then
      its content is one more statement, its labels name that statement and have the
      address in front of it, and the address is past it; EQU defines its one
      label instead, and ORG sets the address first. */
  lemma {:induction false} LineIsRead(l: Load, line: Line, number: nat, forward: Table)
    requires Clean(l) && !IsEnd(line)
    ensures Clean(LoadStep(l, line, number, forward)) <==> IsGood(l, line, forward)
    ensures IsGood(l, line, forward) ==> IsReadAs(l, LoadStep(l, line, number, forward), line, forward)
  {
    hide LoadOrg, LoadOther, Register, AreNew, IsKnown, Resolve, Over, AreRegistered, Room;
    var attached := l.pending + line.labels;
    var t := LoadStep(l, line, number, forward);
    match line.content {
      case None =>
      case Some(Equ(operand)) =>
      case Some(Org(operand)) =>
        OrgLine(l.(pending := []), operand, attached, number, forward);
        if IsGood(l, line, forward) {
          PendingIsNoPart(l, t, attached, Unsigned(Resolve(operand, Over(l.symbols, forward)).value));
        }
      case Some(content) =>
        OtherLine(l.(pending := []), content, attached, number, forward);
        if IsGood(l, line, forward) {
          PendingIsNoPart(l, t, attached, l.address);
        }
    }
  }

  lemma {:induction false} PendingIsNoPart(l: Load, t: Load, marks: seq<Mark>, value: nat)
    requires AreRegistered(l.(pending := []), t, marks, value)
    ensures AreRegistered(l, t, marks, value)
  {
  }

  ghost predicate IsReadAs(l: Load, t: Load, line: Line, forward: Table) {
    var attached := l.pending + line.labels;
    t.entry == l.entry &&
    match line.content
    case None => t == l.(pending := attached)
    case Some(Equ(operand)) =>
      && Resolve(operand, Over(l.symbols, forward)).Some? && |attached| == 1
      && t == l.(symbols := l.symbols[attached[0].name := Unsigned(Resolve(operand, Over(l.symbols, forward)).value)],
                 instructions := l.instructions + [Equ(operand)], pending := [])
    case Some(Org(operand)) =>
      && Resolve(operand, Over(l.symbols, forward)).Some?
      && var address := Unsigned(Resolve(operand, Over(l.symbols, forward)).value);
        && AreRegistered(l, t, attached, address)
        && t.address == address && t.origin == (if l.origin.None? then Some(address) else l.origin)
        && t.instructions == l.instructions + [Org(operand)] && t.pending == []
    case Some(content) =>
      && AreRegistered(l, t, attached, l.address)
      && t.address == l.address + Room(content, Over(t.symbols, forward)) && t.origin == l.origin
      && t.instructions == l.instructions + [content] && t.pending == []
  }

  /** END is kept as the last statement and names the entry label; without an
      END nothing is added. */
  lemma {:induction false} FinishMeans(l: Load, lines: seq<Line>, n: nat)
    requires StopsAt(lines, n) && l.exception.None?
    ensures n == |lines| ==> Finish(l, lines, n) == l
    ensures n < |lines| ==>
              var t := Finish(l, lines, n);
              && t.entry == lines[n].content.value.entry
              && t == l.(instructions := l.instructions + [lines[n].content.value], pending := [], entry := t.entry)
  {
  }
}
