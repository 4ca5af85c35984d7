/** The built-in layouts. */
module PanelPresets {
  import opened Outcomes
  import opened Records
  import opened PanelTypes
  import opened PanelOperations
  import opened PanelInvariant
  import opened PanelReducers

  datatype Entry = Entry(kind: Kind, minimized: bool, sequence: Option<int>)

  /** A preset: the panels of each column, column widths and row sizes. */
  datatype Definition = Definition(
    name: string, columns: seq<seq<Entry>>, widths: Option<seq<real>>, rows: seq<Option<seq<real>>>)

  datatype PresetId = Classic | CodeRun | Nibbles | HardwareLab | Multimedia | Debug | TerminalFocus

  function Panel(kind: Kind): Entry {
    Entry(kind, false, None)
  }

  function Minimized(kind: Kind): Entry {
    Entry(kind, true, None)
  }

  function WithSequence(kind: Kind, sequence: int): Entry {
    Entry(kind, false, Some(sequence))
  }

  function DefinitionOf(id: PresetId): Definition {
    match id
    case Classic =>
      Definition("Classic IDE", [[WithSequence(Code, 3)], [WithSequence(Terminal, 1), WithSequence(Registers, 2)]],
                 Some([41.0, 59.0]), [None, Some([41.0, 59.0])])
    case CodeRun =>
      Definition("Code and Run", [[Panel(Code)], [Panel(Terminal), Minimized(Registers)]], None, [])
    case Nibbles =>
      Definition("Nibbles Workbench", [[Panel(Code), Panel(Registers)], [Panel(Terminal)]],
                 Some([41.0, 59.0]), [Some([64.0, 36.0]), None])
    case HardwareLab =>
      Definition("Hardware Lab",
                 [[Panel(Terminal)], [Panel(HardwareDisplay)], [Panel(HardwareDigitalIo), Panel(HardwareInterrupts)]],
                 Some([42.0, 26.0, 32.0]), [])
    case Multimedia =>
      Definition("Easy68K Multimedia",
                 [[Panel(Code), Minimized(Terminal)], [Panel(Graphics)], [Panel(Sound), Minimized(Registers)]],
                 Some([28.0, 46.0, 26.0]), [])
    case Debug =>
      Definition("Debug", [[Panel(Code)], [Panel(Terminal), Panel(Debugger)], [Panel(Registers), Panel(Memory)]],
                 None, [])
    case TerminalFocus =>
      Definition("Terminal Focus", [[Panel(Terminal)]], None, [])
  }

  // --- Building ------------------------------------------------------------------------------

  datatype Building = Building(instances: Record<PanelId, Instance>, next: int, columns: seq<Column>)

  const NOTHING := Building(Empty(), 1, [])

  function EntryId(b: Building, e: Entry): PanelId {
    Generated(e.kind, e.sequence.GetOr(b.next))
  }

  function MaxInt(a: int, b: int): int {
    if a >= b then a else b
  }

  function AddEntry(b: Building, e: Entry, allocate: Allocator): Option<Building>
    requires b.instances.Valid()
  {
    var id := EntryId(b, e);
    match CreateConfiguration(e.kind, id, Devices(InstanceList(b.instances)), allocate)
    case None => None
    case Some(config) =>
      Some(b.(instances := b.instances.Set(id, Instance(id, e.kind, DefaultTitle(e.kind), e.minimized, None, config)),
              next := if e.sequence.None? then b.next + 1 else MaxInt(b.next, id.sequence + 1)))
  }

  function AddEntries(b: Building, entries: seq<Entry>, allocate: Allocator): (r: Option<(Building, seq<PanelId>)>)
    requires b.instances.Valid()
    ensures r.Some? ==> r.value.0.instances.Valid() && r.value.0.columns == b.columns && |r.value.1| == |entries|
  {
    if entries == [] then Some((b, []))
    else
      match AddEntries(b, entries[..|entries| - 1], allocate)
      case None => None
      case Some((before, ids)) =>
        match AddEntry(before, entries[|entries| - 1], allocate)
        case None => None
        case Some(after) => Some((after, ids + [EntryId(before, entries[|entries| - 1])]))
  }

  function RowSize(row: Option<seq<real>>, k: nat, n: nat): real
    requires n > 0
  {
    if row.Some? && k < |row.value| then row.value[k] else 100.0 / n as real
  }

  /** The sizes of the first `k` of a column's panels. */
  function RowSizes(ids: seq<PanelId>, row: Option<seq<real>>, k: nat): Record<PanelId, real>
    requires k <= |ids|
  {
    if k == 0 then Empty() else RowSizes(ids, row, k - 1).Set(ids[k - 1], RowSize(row, k - 1, |ids|))
  }

  function RowOf(p: Definition, c: nat): Option<seq<real>> {
    if c < |p.rows| then p.rows[c] else None
  }

  function WidthOf(p: Definition, c: nat): real
    requires p.columns != []
  {
    if p.widths.Some? && c < |p.widths.value| then p.widths.value[c] else 100.0 / |p.columns| as real
  }

  function BuildColumns(p: Definition, n: nat, allocate: Allocator): (b: Option<Building>)
    requires n <= |p.columns|
    ensures b.Some? ==> b.value.instances.Valid()
  {
    if n == 0 then Some(NOTHING)
    else
      match BuildColumns(p, n - 1, allocate)
      case None => None
      case Some(before) =>
        match AddEntries(before, p.columns[n - 1], allocate)
        case None => None
        case Some((after, ids)) =>
          Some(after.(columns := after.columns + [
                        Column(Numbered(n), WidthOf(p, n - 1), ids, RowSizes(ids, RowOf(p, n - 1), |ids|))]))
  }

  function FirstPanel(columns: seq<Column>): Option<PanelId> {
    if columns == [] || columns[0].panelIds == [] then None else Some(columns[0].panelIds[0])
  }

  function Preset(p: Definition, allocate: Allocator): Option<Document> {
    match BuildColumns(p, |p.columns|, allocate)
    case None => None
    case Some(b) =>
      Some(Document(p.name, |b.columns|, b.columns, [], b.instances, FirstPanel(b.columns),
                    FirstOfKind(b.instances.keys, b.instances.values, Terminal), b.next, |b.columns| + 1))
  }

  method PlaceEntries(before: Building, entries: seq<Entry>, allocate: Allocator)
    returns (r: Option<(Building, seq<PanelId>)>)
    requires before.instances.Valid()
    ensures r == AddEntries(before, entries, allocate)
  {
    hide AddEntry;
    var b, ids := before, [];
    for k := 0 to |entries|
      invariant AddEntries(before, entries[..k], allocate) == Some((b, ids))
      invariant b.instances.Valid()
    {
      assert entries[..k + 1][..k] == entries[..k];
      var added := AddEntry(b, entries[k], allocate);
      if added.None? {
        StoppedEntries(before, entries, k + 1, |entries|, allocate);
        assert entries[..|entries|] == entries;
        return None;
      }
      ids := ids + [EntryId(b, entries[k])];
      b := added.value;
    }
    assert entries[..|entries|] == entries;
    r := Some((b, ids));
  }

  method RowRecord(ids: seq<PanelId>, row: Option<seq<real>>) returns (sizes: Record<PanelId, real>)
    ensures sizes == RowSizes(ids, row, |ids|)
  {
    sizes := Empty();
    for k := 0 to |ids|
      invariant sizes == RowSizes(ids, row, k)
    {
      sizes := sizes.Set(ids[k], RowSize(row, k, |ids|));
    }
  }

  /** Fails when the allocator finds no addresses for a hardware panel. */
  method BuildPreset(p: Definition, allocate: Allocator) returns (r: Option<Document>)
    ensures r == Preset(p, allocate)
  {
    hide AddEntries, RowSizes, WidthOf, RowOf, FirstOfKind;
    var b := NOTHING;
    for c := 0 to |p.columns|
      invariant BuildColumns(p, c, allocate) == Some(b)
      invariant b.instances.Valid()
    {
      var placed := PlaceEntries(b, p.columns[c], allocate);
      if placed.None? {
        StoppedColumns(p, c + 1, |p.columns|, allocate);
        return None;
      }
      var (after, ids) := placed.value;
      var sizes := RowRecord(ids, RowOf(p, c));
      b := after.(columns := after.columns + [Column(Numbered(c + 1), WidthOf(p, c), ids, sizes)]);
    }
    r := Some(Document(p.name, |b.columns|, b.columns, [], b.instances, FirstPanel(b.columns),
                       FirstOfKind(b.instances.keys, b.instances.values, Terminal), b.next, |b.columns| + 1));
  }

  lemma {:induction false} StoppedEntries(b: Building, entries: seq<Entry>, k: nat, n: nat, allocate: Allocator)
    requires b.instances.Valid() && k <= n <= |entries| && AddEntries(b, entries[..k], allocate).None?
    ensures AddEntries(b, entries[..n], allocate).None?
    decreases n
  {
    if k < n {
      StoppedEntries(b, entries, k, n - 1, allocate);
      assert entries[..n][..n - 1] == entries[..n - 1];
    }
  }

  lemma {:induction false} StoppedColumns(p: Definition, c: nat, n: nat, allocate: Allocator)
    requires c <= n <= |p.columns| && BuildColumns(p, c, allocate).None?
    ensures BuildColumns(p, n, allocate).None?
    decreases n
  {
    hide AddEntries, WidthOf, RowSizes, RowOf;
    if c < n {
      StoppedColumns(p, c, n - 1, allocate);
    }
  }

  // --- Presets satisfy the invariant ---------------------------------------------------------------

  function Flat(columns: seq<seq<Entry>>): seq<Entry> {
    if columns == [] then [] else Flat(columns[..|columns| - 1]) + columns[|columns| - 1]
  }

  predicate DistinctKinds(entries: seq<Entry>) {
    forall i, j :: 0 <= i < j < |entries| ==> entries[i].kind != entries[j].kind
  }

  predicate RowOk(row: Option<seq<real>>, n: nat) {
    row.Some? ==>
      |row.value| == n && Sum(row.value) == 100.0 && forall k :: 0 <= k < n ==> row.value[k] > 0.0
  }

  predicate WellFormed(p: Definition) {
    && 1 <= |p.columns| <= MAX_PANEL_COLUMNS
    && |Flat(p.columns)| <= MAX_PANEL_INSTANCES
    && DistinctKinds(Flat(p.columns))
    && forall c :: 0 <= c < |p.columns| ==> RowOk(RowOf(p, c), |p.columns[c]|)
  }

  /** The panels of the entries done so far, each of its entry's kind. */
  ghost predicate Built(b: Building, done: seq<Entry>) {
    && b.next >= 1
    && b.instances.Valid() && |b.instances.keys| == |done|
    && (forall k :: 0 <= k < |done| ==> b.instances.keys[k].Generated? && b.instances.keys[k].kind == done[k].kind)
    && (forall id :: id in b.instances.values ==>
          && KeptUnder(b.instances.values[id], id) && b.instances.values[id].rect.None?
          && id.Generated? && id.sequence < b.next)
  }

  lemma {:induction false} NewKind(b: Building, done: seq<Entry>, e: Entry)
    requires Built(b, done) && DistinctKinds(done + [e])
    ensures EntryId(b, e) !in b.instances.keys
  {
    forall k | 0 <= k < |done|
      ensures b.instances.keys[k] != EntryId(b, e)
    {
      assert (done + [e])[k].kind != (done + [e])[|done|].kind;
    }
  }

  lemma {:induction false} EntryBuilds(b: Building, done: seq<Entry>, e: Entry, allocate: Allocator)
    requires Built(b, done) && DistinctKinds(done + [e]) && AddEntry(b, e, allocate).Some?
    ensures var after := AddEntry(b, e, allocate).value;
      Built(after, done + [e]) && after.instances.keys == b.instances.keys + [EntryId(b, e)]
  {
    hide Devices, InstanceList, CreateConfiguration, DefaultTitle, DistinctKinds;
    var id := EntryId(b, e);
    assert id !in b.instances.keys by {
      NewKind(b, done, e);
    }
    var config := CreateConfiguration(e.kind, id, Devices(InstanceList(b.instances)), allocate).value;
    b.instances.SetKeepsValid(id, Instance(id, e.kind, DefaultTitle(e.kind), e.minimized, None, config));
  }

  lemma {:induction false} EntriesBuild(b: Building, done: seq<Entry>, entries: seq<Entry>, allocate: Allocator)
    requires Built(b, done) && DistinctKinds(done + entries) && AddEntries(b, entries, allocate).Some?
    ensures var r := AddEntries(b, entries, allocate).value;
      Built(r.0, done + entries) && r.0.instances.keys == b.instances.keys + r.1
    decreases |entries|
  {
    hide AddEntry, Built;
    if entries == [] {
      assert done + entries == done;
    } else {
      var last := |entries| - 1;
      assert DistinctKinds(done + entries[..last]) by {
        assert done + entries[..last] == (done + entries)[..|done| + last];
      }
      BuiltIsDistinct(b, done);
      EntriesBuild(b, done, entries[..last], allocate);
      assert done + entries == (done + entries[..last]) + [entries[last]];
      EntryBuilds(AddEntries(b, entries[..last], allocate).value.0, done + entries[..last], entries[last], allocate);
    }
  }

  lemma {:induction false} EqualShare(n: nat)
    requires n > 0
    ensures 100.0 / n as real == Share(1.0, n as real) > 0.0
  {
  }

  /** What the first `k` sizes of a row add up to. */
  function RowTotal(row: Option<seq<real>>, k: nat, n: nat): real
    requires k <= n && n > 0
    requires row.Some? ==> |row.value| == n
  {
    if row.Some? then Sum(row.value[..k]) else Share(k as real, n as real)
  }

  lemma {:induction false} RowTotalNext(row: Option<seq<real>>, k: nat, n: nat)
    requires k < n && (row.Some? ==> |row.value| == n)
    ensures RowTotal(row, k, n) + RowSize(row, k, n) == RowTotal(row, k + 1, n)
  {
    if row.Some? {
      assert row.value[..k + 1][..k] == row.value[..k];
    } else {
      EqualShare(n);
      ShareAdds(k as real, 1.0, n as real);
    }
  }

  lemma {:induction false} RowTotalEnds(row: Option<seq<real>>, n: nat)
    requires n > 0 && RowOk(row, n)
    ensures RowTotal(row, 0, n) == 0.0 && RowTotal(row, n, n) == 100.0
  {
    if row.Some? {
      assert row.value[..n] == row.value && row.value[..0] == [];
    } else {
      ShareOfNothing(n as real);
      WholeShare(n as real);
    }
  }

  /** The first `k` panels with positive sizes. */
  ghost predicate RowTable(r: Record<PanelId, real>, ids: seq<PanelId>, k: nat)
    requires k <= |ids|
  {
    && r.keys == ids[..k] && r.Valid()
    && forall id :: id in r.values ==> r.values[id] > 0.0
  }

  lemma {:induction false} RowIsTable(ids: seq<PanelId>, row: Option<seq<real>>, k: nat)
    requires k <= |ids| && ids != [] && Distinct(ids) && RowOk(row, |ids|)
    ensures RowTable(RowSizes(ids, row, k), ids, k)
    decreases k
  {
    hide RowSize, RowOk;
    if k > 0 {
      var front := RowSizes(ids, row, k - 1);
      RowIsTable(ids, row, k - 1);
      DistinctPrefix(ids, k);
      RowSizePositive(row, k - 1, |ids|);
      front.SetKeepsValid(ids[k - 1], RowSize(row, k - 1, |ids|));
      assert ids[..k] == ids[..k - 1] + [ids[k - 1]];
    }
  }

  lemma {:induction false} RowSum(ids: seq<PanelId>, row: Option<seq<real>>, k: nat)
    requires k <= |ids| && ids != [] && Distinct(ids) && RowOk(row, |ids|)
    ensures RowTable(RowSizes(ids, row, k), ids, k)
    ensures SizeTotal(RowSizes(ids, row, k)) == RowTotal(row, k, |ids|)
    decreases k
  {
    hide RowTotal, RowSize, Sum, Distinct;
    RowIsTable(ids, row, k);
    if k == 0 {
      RowTotalEnds(row, |ids|);
    } else {
      var front := RowSizes(ids, row, k - 1);
      RowIsTable(ids, row, k - 1);
      RowSum(ids, row, k - 1);
      DistinctPrefix(ids, k);
      TotalIgnores(front.keys, front.values, ids[k - 1], RowSize(row, k - 1, |ids|));
      RowTotalNext(row, k - 1, |ids|);
      assert ids[..k][..k - 1] == ids[..k - 1];
    }
  }

  lemma {:induction false} DistinctPrefix(ids: seq<PanelId>, k: nat)
    requires Distinct(ids) && 0 < k <= |ids|
    ensures ids[k - 1] !in ids[..k - 1]
  {
  }

  lemma {:induction false} RowSizePositive(row: Option<seq<real>>, k: nat, n: nat)
    requires k < n && RowOk(row, n)
    ensures RowSize(row, k, n) > 0.0
  {
    EqualShare(n);
  }

  lemma {:induction false} PresetColumnIsSized(id: ColumnId, width: real, ids: seq<PanelId>, row: Option<seq<real>>)
    requires Distinct(ids) && RowOk(row, |ids|)
    ensures Sized(Column(id, width, ids, RowSizes(ids, row, |ids|)))
  {
    if ids != [] {
      RowSum(ids, row, |ids|);
      RowTotalEnds(row, |ids|);
      assert ids[..|ids|] == ids;
    }
  }

  ghost predicate ColumnsBuilt(b: Building, n: nat) {
    && |b.columns| == n
    && (forall c :: 0 <= c < n ==> b.columns[c].id == Numbered(c + 1))
    && SizesOk(b.columns)
    && ColumnPanels(b.columns) == b.instances.keys
  }

  lemma {:induction false} ColumnsBuild(p: Definition, n: nat, allocate: Allocator)
    requires WellFormed(p) && n <= |p.columns| && BuildColumns(p, n, allocate).Some?
    ensures Built(BuildColumns(p, n, allocate).value, Flat(p.columns[..n]))
    ensures ColumnsBuilt(BuildColumns(p, n, allocate).value, n)
  {
    hide AddEntries, Sized, Built, RowSizes, RowOk, Distinct, Flat, ColumnsBuilt, DistinctKinds;
    if n == 0 {
      NothingIsBuilt();
      FlatOfNothing(p.columns);
    } else {
      var before := BuildColumns(p, n - 1, allocate).value;
      ColumnsBuild(p, n - 1, allocate);
      assert p.columns[..n][..n - 1] == p.columns[..n - 1];
      FlatPrefix(p.columns, n);
      EntriesBuild(before, Flat(p.columns[..n - 1]), p.columns[n - 1], allocate);
      var (after, ids) := AddEntries(before, p.columns[n - 1], allocate).value;
      BuiltIsDistinct(after, Flat(p.columns[..n]));
      assert Distinct(before.instances.keys + ids);
      DistinctTail(before.instances.keys, ids);
      PresetColumnIsSized(Numbered(n), WidthOf(p, n - 1), ids, RowOf(p, n - 1));
      var b := BuildColumns(p, n, allocate).value;
      ColumnBuilt(before, b, b.columns[|b.columns| - 1], n);
      BuiltIgnoresColumns(after, b, Flat(p.columns[..n]));
    }
  }

  lemma {:induction false} FlatOfNothing(columns: seq<seq<Entry>>)
    ensures Flat(columns[..0]) == []
  {
  }

  /** One more column, with the panels that were added last. */
  lemma {:induction false} ColumnBuilt(before: Building, b: Building, column: Column, n: nat)
    requires n > 0 && ColumnsBuilt(before, n - 1) && b.columns == before.columns + [column]
    requires Sized(column) && column.id == Numbered(n) && b.instances.keys == before.instances.keys + column.panelIds
    ensures ColumnsBuilt(b, n)
  {
    hide Sized;
    assert b.columns[..n - 1] == before.columns;
  }

  lemma {:induction false} NothingIsBuilt()
    ensures Built(NOTHING, []) && ColumnsBuilt(NOTHING, 0)
  {
  }

  lemma {:induction false} BuiltIgnoresColumns(b: Building, b': Building, done: seq<Entry>)
    requires Built(b, done) && b'.instances == b.instances && b'.next == b.next
    ensures Built(b', done)
  {
  }

  lemma {:induction false} BuiltIsDistinct(b: Building, done: seq<Entry>)
    requires Built(b, done)
    ensures b.instances.Valid() && Distinct(b.instances.keys)
  {
  }

  lemma {:induction false} DistinctTail(a: seq<PanelId>, b: seq<PanelId>)
    requires Distinct(a + b)
    ensures Distinct(b)
  {
    forall i, j | 0 <= i < j < |b|
      ensures b[i] != b[j]
    {
      assert (a + b)[|a| + i] != (a + b)[|a| + j];
    }
  }

  lemma {:induction false} FlatGrows(columns: seq<seq<Entry>>, n: nat)
    requires n <= |columns|
    ensures Flat(columns[..n]) <= Flat(columns)
    decreases |columns| - n
  {
    if n < |columns| {
      FlatGrows(columns, n + 1);
      assert columns[..n + 1][..n] == columns[..n];
    } else {
      assert columns[..n] == columns;
    }
  }

  lemma {:induction false} FlatPrefix(columns: seq<seq<Entry>>, n: nat)
    requires 0 < n <= |columns| && DistinctKinds(Flat(columns))
    ensures Flat(columns[..n]) == Flat(columns[..n - 1]) + columns[n - 1]
    ensures DistinctKinds(Flat(columns[..n]))
  {
    FlatGrows(columns, n);
    assert columns[..n][..n - 1] == columns[..n - 1];
  }

  /** A preset that can be built at all satisfies the invariant. */
  lemma {:induction false} PresetSatisfiesInvariant(p: Definition, allocate: Allocator)
    requires WellFormed(p) && Preset(p, allocate).Some?
    ensures Inv(Preset(p, allocate).value)
  {
    hide Sized, BuildColumns, DistinctKinds, RowOk, ColumnPanels, PlacedIn, FirstOfKind, FirstPanel, RowOf, Flat;
    ColumnsBuild(p, |p.columns|, allocate);
    assert p.columns[..|p.columns|] == p.columns;
    assert |Flat(p.columns)| <= MAX_PANEL_INSTANCES;
    var b := BuildColumns(p, |p.columns|, allocate).value;
    var d := Preset(p, allocate).value;
    ColumnPanelsArePlaced(b.columns);
    FirstPanelIsPlaced(b.columns);
    assert RectsOk(d.instances.values, d.floating);
    OwnerFound(b.instances);
  }

  /** It has a panel for every entry. */
  lemma {:induction false} PresetHasPanels(p: Definition, allocate: Allocator)
    requires WellFormed(p) && Preset(p, allocate).Some?
    ensures |Preset(p, allocate).value.instances.keys| == |Flat(p.columns)|
  {
    hide ColumnsBuilt, BuildColumns, WellFormed, FirstPanel, FirstOfKind, Flat;
    ColumnsBuild(p, |p.columns|, allocate);
    assert p.columns[..|p.columns|] == p.columns;
  }

  lemma {:induction false} OwnerFound(instances: Record<PanelId, Instance>)
    requires instances.Valid()
    ensures OwnerOk(FirstOfKind(instances.keys, instances.values, Terminal), instances.values)
  {
    forall id | id in instances.values
      ensures id in instances.keys
    {
    }
  }

  lemma {:induction false} FirstPanelIsPlaced(columns: seq<Column>)
    ensures FirstPanel(columns).Some? ==> FirstPanel(columns).value in ColumnPanels(columns)
  {
    if |columns| > 1 {
      FirstPanelIsPlaced(columns[..|columns| - 1]);
    } else if |columns| == 1 {
      assert columns[..0] == [];
    }
  }

  lemma {:induction false} FlatOne(a: seq<Entry>)
    ensures Flat([a]) == a
  {
    assert [a][..0] == [];
  }

  lemma {:induction false} FlatTwo(a: seq<Entry>, b: seq<Entry>)
    ensures Flat([a, b]) == a + b
  {
    FlatOne(a);
    assert [a, b][..1] == [a];
  }

  lemma {:induction false} FlatThree(a: seq<Entry>, b: seq<Entry>, c: seq<Entry>)
    ensures Flat([a, b, c]) == a + b + c
  {
    FlatTwo(a, b);
    assert [a, b, c][..2] == [a, b];
  }

  lemma {:induction false} SumOfTwo(x: real, y: real)
    ensures Sum([x, y]) == x + y
  {
    assert [x, y][..1] == [x];
    assert [x][..0] == [];
    assert Sum([x]) == Sum([]) + x;
  }

  lemma {:induction false} ClassicIsWellFormed()
    ensures WellFormed(DefinitionOf(Classic))
  {
    FlatTwo([WithSequence(Code, 3)], [WithSequence(Terminal, 1), WithSequence(Registers, 2)]);
    SumOfTwo(41.0, 59.0);
  }

  lemma {:induction false} ClassicHasPanels(allocate: Allocator)
    requires Preset(DefinitionOf(Classic), allocate).Some?
    ensures Preset(DefinitionOf(Classic), allocate).value.instances.keys != []
  {
    ClassicIsWellFormed();
    FlatTwo([WithSequence(Code, 3)], [WithSequence(Terminal, 1), WithSequence(Registers, 2)]);
    hide Preset, WellFormed, Flat;
    PresetHasPanels(DefinitionOf(Classic), allocate);
  }

  lemma {:induction false} CodeRunIsWellFormed()
    ensures WellFormed(DefinitionOf(CodeRun))
  {
    FlatTwo([Panel(Code)], [Panel(Terminal), Minimized(Registers)]);
  }

  lemma {:induction false} NibblesIsWellFormed()
    ensures WellFormed(DefinitionOf(Nibbles))
  {
    FlatTwo([Panel(Code), Panel(Registers)], [Panel(Terminal)]);
    SumOfTwo(64.0, 36.0);
  }

  lemma {:induction false} HardwareLabIsWellFormed()
    ensures WellFormed(DefinitionOf(HardwareLab))
  {
    FlatThree([Panel(Terminal)], [Panel(HardwareDisplay)], [Panel(HardwareDigitalIo), Panel(HardwareInterrupts)]);
  }

  lemma {:induction false} MultimediaIsWellFormed()
    ensures WellFormed(DefinitionOf(Multimedia))
  {
    FlatThree([Panel(Code), Minimized(Terminal)], [Panel(Graphics)], [Panel(Sound), Minimized(Registers)]);
  }

  lemma {:induction false} DebugIsWellFormed()
    ensures WellFormed(DefinitionOf(Debug))
  {
    FlatThree([Panel(Code)], [Panel(Terminal), Panel(Debugger)], [Panel(Registers), Panel(Memory)]);
  }

  lemma {:induction false} TerminalFocusIsWellFormed()
    ensures WellFormed(DefinitionOf(TerminalFocus))
  {
    FlatOne([Panel(Terminal)]);
  }

  /** All seven presets satisfy the invariant, whenever they can be built. */
  lemma {:induction false} PresetsSatisfyInvariant(id: PresetId, allocate: Allocator)
    requires Preset(DefinitionOf(id), allocate).Some?
    ensures Inv(Preset(DefinitionOf(id), allocate).value)
  {
    hide *;
    match id {
      case Classic => ClassicIsWellFormed();
      case CodeRun => CodeRunIsWellFormed();
      case Nibbles => NibblesIsWellFormed();
      case HardwareLab => HardwareLabIsWellFormed();
      case Multimedia => MultimediaIsWellFormed();
      case Debug => DebugIsWellFormed();
      case TerminalFocus => TerminalFocusIsWellFormed();
    }
    PresetSatisfiesInvariant(DefinitionOf(id), allocate);
  }
}
