/** What the emission reports besides the bytes: the source map and the load address. */
module EmissionTrace {
  import opened Outcomes
  import opened Source
  import ProgramImage
  import A = Assembler

  // --- Where statements go -----------------------------------------------------------------------

  /** Instructions and wide data go to the next even address, bytes and the
      other directives to the next address, and ORG sets it. */
  lemma {:induction false} PlaceMeans(statement: A.Statement, symbols: Symbols, cursor: nat)
    ensures var start := A.Place(statement, symbols, cursor);
      match statement
      case Instruction(_) => start % 2 == 0 && cursor <= start <= cursor + 1
      case Org(target) => start == A.ValueOf(target, symbols, cursor)
      case End => start == cursor
      case Equ => start == cursor
      case Storage(size, _) => if size == 1 then start == cursor else start % 2 == 0 && cursor <= start <= cursor + 1
      case Block(size, _) => if size == 1 then start == cursor else start % 2 == 0 && cursor <= start <= cursor + 1
      case Data(size, _) => if size == 1 then start == cursor else start % 2 == 0 && cursor <= start <= cursor + 1
  {
  }

  /** An instruction that cannot be encoded counts as two bytes while labels
      are being placed, and any other as long as it is. */
  lemma {:induction false} LayoutLengthMeans(code: (Symbols, nat) -> Result<seq<ProgramImage.Byte>>, symbols: Symbols, start: nat)
    ensures var length := A.LayoutLength(A.Instruction(code), symbols, start);
      && (code(symbols, start).Err? ==> length == 2)
      && (code(symbols, start).Ok? ==> length == |code(symbols, start).value|)
  {
  }

  // --- The source map ----------------------------------------------------------------------------

  /** The entry says where a statement that has code was emitted, and how long it is. */
  predicate IsEntryOf(p: A.Program, symbols: Symbols, entry: A.Entry, k: nat) {
    && k < |p.statements| && entry.statement == k && !A.Marker(p.statements[k])
    && A.EmissionStart(p, symbols, k) == Ok(entry.address)
    && A.Code(p.statements[k], symbols, entry.address).Ok?
    && entry.length == |A.Code(p.statements[k], symbols, entry.address).value| > 0
  }

  /** The statement takes up bytes. */
  predicate HasCode(p: A.Program, symbols: Symbols, k: nat)
    requires k < |p.statements|
  {
    && !A.Marker(p.statements[k]) && A.EmissionStart(p, symbols, k).Ok?
    && var code := A.Code(p.statements[k], symbols, A.EmissionStart(p, symbols, k).value);
      code.Ok? && code.value != []
  }

  predicate IsMapped(sourceMap: seq<A.Entry>, k: nat) {
    exists i :: 0 <= i < |sourceMap| && sourceMap[i].statement == k
  }

  /** Exactly the statements with code have an entry, in their order and once each. */
  ghost predicate MapsUpTo(p: A.Program, symbols: Symbols, sourceMap: seq<A.Entry>, n: nat)
    requires n <= |p.statements|
  {
    && (forall i :: 0 <= i < |sourceMap| ==>
          sourceMap[i].statement < n && IsEntryOf(p, symbols, sourceMap[i], sourceMap[i].statement))
    && (forall i, j :: 0 <= i < j < |sourceMap| ==> sourceMap[i].statement < sourceMap[j].statement)
    && (forall k :: 0 <= k < n && HasCode(p, symbols, k) ==> IsMapped(sourceMap, k))
  }

  lemma {:induction false} StillMapped(sourceMap: seq<A.Entry>, more: seq<A.Entry>, k: nat)
    requires IsMapped(sourceMap, k)
    ensures IsMapped(sourceMap + more, k)
  {
    var i :| 0 <= i < |sourceMap| && sourceMap[i].statement == k;
    assert (sourceMap + more)[i].statement == k;
  }

  /** One statement adds its own entry, if it has code. */
  lemma {:induction false} OneMoreMapped(p: A.Program, symbols: Symbols, n: nat, sourceMap: seq<A.Entry>, added: seq<A.Entry>)
    requires n < |p.statements| && MapsUpTo(p, symbols, sourceMap, n)
    requires if HasCode(p, symbols, n) then |added| == 1 && IsEntryOf(p, symbols, added[0], n) else added == []
    ensures MapsUpTo(p, symbols, sourceMap + added, n + 1)
  {
    hide IsEntryOf, HasCode;
    var whole := sourceMap + added;
    if added != [] {
      assert whole[|sourceMap|] == added[0];
      assert added[0].statement == n by { EntryStatement(p, symbols, added[0], n); }
      assert IsMapped(whole, n);
    }
    forall k | 0 <= k < n && HasCode(p, symbols, k)
      ensures IsMapped(whole, k)
    {
      StillMapped(sourceMap, added, k);
    }
  }

  lemma {:induction false} EntryStatement(p: A.Program, symbols: Symbols, entry: A.Entry, k: nat)
    requires IsEntryOf(p, symbols, entry, k)
    ensures entry.statement == k
  {
  }

  /** What one statement adds to the source map, and makes of the load address. */
  lemma {:induction false} OneStatement(e: A.Emission, p: A.Program, k: nat, symbols: Symbols)
    requires k < |p.statements| && A.EmissionCursor(p, symbols, k) == Ok(e.cursor) && A.EmitOne(e, p, k, symbols).Ok?
    ensures var t := A.EmitOne(e, p, k, symbols).value;
      && |t.sourceMap| >= |e.sourceMap| && t.sourceMap[..|e.sourceMap|] == e.sourceMap
      && (var added := t.sourceMap[|e.sourceMap|..];
          if HasCode(p, symbols, k) then |added| == 1 && IsEntryOf(p, symbols, added[0], k) else added == [])
      && t.loadAddress == if p.statements[k].Org? && A.EmissionStart(p, symbols, k).value < e.loadAddress
                          then A.EmissionStart(p, symbols, k).value else e.loadAddress
  {
    hide A.WriteBytes, A.Code, A.EmissionCursor;
    var statement := p.statements[k];
    if !A.Marker(statement) {
      assert A.Place(statement, symbols, e.cursor) == A.Padded(e, statement).cursor;
    } else {
      MarkersHaveNoCode(statement, symbols);
    }
  }

  lemma {:induction false} MarkersHaveNoCode(statement: A.Statement, symbols: Symbols)
    requires A.Marker(statement)
    ensures forall start :: A.Code(statement, symbols, start) == Ok([])
  {
  }

  /** The source map has exactly the statements with code, each where it lies. */
  lemma {:induction false} SourceMapIsExact(p: A.Program, symbols: Symbols, n: nat, e: A.Emission)
    requires n <= |p.statements| && A.Emit(p, symbols, n) == Ok(e)
    ensures MapsUpTo(p, symbols, e.sourceMap, n)
  {
    hide A.EmitOne, A.EmissionStart, HasCode, IsEntryOf, MapsUpTo;
    if n == 0 {
      NothingMapped(p, symbols);
    } else {
      var before := A.Emit(p, symbols, n - 1).value;
      SourceMapIsExact(p, symbols, n - 1, before);
      A.EmitCursor(p, symbols, n - 1);
      OneStatement(before, p, n - 1, symbols);
      OneMoreMapped(p, symbols, n - 1, before.sourceMap, e.sourceMap[|before.sourceMap|..]);
      assert e.sourceMap == before.sourceMap + e.sourceMap[|before.sourceMap|..];
    }
  }

  lemma {:induction false} NothingMapped(p: A.Program, symbols: Symbols)
    ensures MapsUpTo(p, symbols, [], 0)
  {
  }

  // --- The load address ----------------------------------------------------------------------------

  predicate IsOrigin(p: A.Program, symbols: Symbols, k: nat, address: nat) {
    k < |p.statements| && p.statements[k].Org? && A.EmissionStart(p, symbols, k) == Ok(address)
  }

  /** The lowest of the origin and the addresses that ORGs have reached. */
  ghost predicate IsLowest(p: A.Program, symbols: Symbols, n: nat, address: nat) {
    && address <= p.Origin()
    && (forall k, other :: 0 <= k < n && IsOrigin(p, symbols, k, other) ==> address <= other)
    && (address == p.Origin() || exists k :: 0 <= k < n && IsOrigin(p, symbols, k, address))
  }

  lemma {:induction false} LowestNext(p: A.Program, symbols: Symbols, n: nat, before: nat, after: nat)
    requires n < |p.statements| && IsLowest(p, symbols, n, before) && A.EmissionStart(p, symbols, n).Ok?
    requires after == if p.statements[n].Org? && A.EmissionStart(p, symbols, n).value < before
                      then A.EmissionStart(p, symbols, n).value else before
    ensures IsLowest(p, symbols, n + 1, after)
  {
    hide A.EmissionStart;
    if after != before {
      assert IsOrigin(p, symbols, n, after);
    } else if after != p.Origin() {
      var k :| 0 <= k < n && IsOrigin(p, symbols, k, before);
      assert IsOrigin(p, symbols, k, after);
    }
  }

  /** The load address is the lowest of the origin and the ORGs' addresses. */
  lemma {:induction false} LoadAddressIsLowest(p: A.Program, symbols: Symbols, n: nat, e: A.Emission)
    requires n <= |p.statements| && A.Emit(p, symbols, n) == Ok(e)
    ensures IsLowest(p, symbols, n, e.loadAddress)
  {
    hide A.EmitOne, A.EmissionStart, IsLowest, HasCode, IsEntryOf;
    if n == 0 {
      StartIsLowest(p, symbols);
    } else {
      var before := A.Emit(p, symbols, n - 1).value;
      LoadAddressIsLowest(p, symbols, n - 1, before);
      A.EmitCursor(p, symbols, n - 1);
      OneStatement(before, p, n - 1, symbols);
      StartIsKnown(p, symbols, n - 1);
      LowestNext(p, symbols, n - 1, before.loadAddress, e.loadAddress);
    }
  }

  lemma {:induction false} StartIsLowest(p: A.Program, symbols: Symbols)
    ensures IsLowest(p, symbols, 0, p.Origin())
  {
  }

  lemma {:induction false} StartIsKnown(p: A.Program, symbols: Symbols, k: nat)
    requires k < |p.statements| && A.EmissionCursor(p, symbols, k).Ok?
    ensures A.EmissionStart(p, symbols, k).Ok?
  {
  }
}
