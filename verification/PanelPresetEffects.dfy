/** What a built-in layout looks like, panel by panel. */
module PanelPresetEffects {
  import opened Outcomes
  import opened Records
  import opened PanelTypes
  import opened PanelOperations
  import opened PanelPresets
  import opened PanelEffects

  /** No entry asks for a number of its own. */
  predicate AreUnnumbered(entries: seq<Entry>) {
    forall k :: 0 <= k < |entries| ==> entries[k].sequence.None?
  }

  /** The panel of an entry: it has the number the entry asks for. */
  ghost predicate IsPanelOf(instances: map<PanelId, Instance>, id: PanelId, e: Entry) {
    && id in instances && id.Generated? && id.kind == e.kind
    && (e.sequence.Some? ==> id.sequence == e.sequence.value)
    && var panel := instances[id];
      && panel.id == id && panel.kind == e.kind && panel.title == DefaultTitle(e.kind)
      && panel.minimized == e.minimized && panel.rect.None?
  }

  ghost predicate ArePanelsOf(instances: map<PanelId, Instance>, ids: seq<PanelId>, entries: seq<Entry>) {
    |ids| == |entries| && forall k :: 0 <= k < |ids| ==> IsPanelOf(instances, ids[k], entries[k])
  }

  /** No panel has been lost or changed. */
  ghost predicate Extends(before: map<PanelId, Instance>, after: map<PanelId, Instance>) {
    forall id :: id in before ==> id in after && after[id] == before[id]
  }

  lemma {:induction false} EntryAddsPanel(b: Building, done: seq<Entry>, e: Entry, allocate: Allocator)
    requires Built(b, done) && DistinctKinds(done + [e]) && AddEntry(b, e, allocate).Some?
    ensures var after := AddEntry(b, e, allocate).value;
      && Extends(b.instances.values, after.instances.values)
      && IsPanelOf(after.instances.values, EntryId(b, e), e)
      && (e.sequence.None? ==> EntryId(b, e).sequence == b.next && after.next == b.next + 1)
  {
    hide Devices, InstanceList, CreateConfiguration, DefaultTitle, DistinctKinds;
    NewKind(b, done, e);
    assert EntryId(b, e) !in b.instances.values by { ValidKeys(b.instances); }
  }

  lemma {:induction false} ValidKeys(instances: Record<PanelId, Instance>)
    requires instances.Valid()
    ensures forall id :: id in instances.keys <==> id in instances.values
  {
  }

  lemma {:induction false} ExtendedPanels(
    before: map<PanelId, Instance>, after: map<PanelId, Instance>, ids: seq<PanelId>, entries: seq<Entry>)
    requires Extends(before, after) && ArePanelsOf(before, ids, entries)
    ensures ArePanelsOf(after, ids, entries)
  {
    forall k | 0 <= k < |ids|
      ensures IsPanelOf(after, ids[k], entries[k])
    {
      assert IsPanelOf(before, ids[k], entries[k]);
    }
  }

  lemma {:induction false} EntriesAddPanels(b: Building, done: seq<Entry>, entries: seq<Entry>, allocate: Allocator)
    requires Built(b, done) && DistinctKinds(done + entries) && AddEntries(b, entries, allocate).Some?
    ensures var (after, ids) := AddEntries(b, entries, allocate).value;
      && Extends(b.instances.values, after.instances.values)
      && ArePanelsOf(after.instances.values, ids, entries)
      && (AreUnnumbered(entries) ==>
            after.next == b.next + |entries| && forall k :: 0 <= k < |ids| ==> HasNumber(ids[k], b.next + k))
    decreases |entries|
  {
    hide AddEntry, Built, DistinctKinds, IsPanelOf;
    if entries != [] {
      var last := |entries| - 1;
      var front, e := entries[..last], entries[last];
      assert done + front == (done + entries)[..|done| + last];
      assert done + entries == done + front + [e];
      DistinctKindsFront(done + entries, |done| + last);
      BuiltIsDistinct(b, done);
      EntriesAddPanels(b, done, front, allocate);
      EntriesBuild(b, done, front, allocate);
      var (before, ids) := AddEntries(b, front, allocate).value;
      EntryAddsPanel(before, done + front, e, allocate);
      var after := AddEntry(before, e, allocate).value;
      ExtendedPanels(before.instances.values, after.instances.values, ids, front);
      EntryHasId(before, e);
    }
  }

  predicate HasNumber(id: PanelId, n: int) {
    id.Generated? && id.sequence == n
  }

  lemma {:induction false} EntryHasId(b: Building, e: Entry)
    ensures e.sequence.None? ==> HasNumber(EntryId(b, e), b.next)
  {
  }

  lemma {:induction false} DistinctKindsFront(entries: seq<Entry>, n: nat)
    requires DistinctKinds(entries) && n <= |entries|
    ensures DistinctKinds(entries[..n])
  {
  }

  /** The column of the definition's column `c`: its panels from top to bottom,
      with the widths and sizes given, or else equal ones. */
  ghost predicate IsColumnOf(p: Definition, c: nat, instances: map<PanelId, Instance>, column: Column)
    requires c < |p.columns|
  {
    && column.id == Numbered(c + 1)
    && column.width == (if p.widths.Some? && c < |p.widths.value| then p.widths.value[c] else 100.0 / |p.columns| as real)
    && ArePanelsOf(instances, column.panelIds, p.columns[c])
    && column.sizes.keys == column.panelIds
    && forall k :: 0 <= k < |column.panelIds| ==>
         && column.panelIds[k] in column.sizes.values
         && column.sizes.values[column.panelIds[k]] == GivenRow(p, c, k)
  }

  function GivenRow(p: Definition, c: nat, k: nat): real
    requires c < |p.columns| && k < |p.columns[c]|
  {
    if c < |p.rows| && p.rows[c].Some? && k < |p.rows[c].value| then p.rows[c].value[k] else 100.0 / |p.columns[c]| as real
  }

  lemma {:induction false} RowSizesMean(ids: seq<PanelId>, row: Option<seq<real>>, n: nat)
    requires n <= |ids| && Distinct(ids)
    ensures var sizes := RowSizes(ids, row, n);
      && sizes.keys == ids[..n]
      && (forall id :: id in sizes.values <==> id in ids[..n])
      && forall k :: 0 <= k < n ==> sizes.values[ids[k]] == RowSize(row, k, |ids|)
    decreases n
  {
    hide RowSize;
    if n > 0 {
      RowSizesMean(ids, row, n - 1);
      assert ids[..n] == ids[..n - 1] + [ids[n - 1]];
    }
  }

  ghost predicate AreColumnsOf(p: Definition, n: nat, b: Building)
    requires n <= |p.columns|
  {
    |b.columns| == n && forall c :: 0 <= c < n ==> IsColumnOf(p, c, b.instances.values, b.columns[c])
  }

  lemma {:induction false} ExtendedColumn(
    p: Definition, c: nat, before: map<PanelId, Instance>, after: map<PanelId, Instance>, column: Column)
    requires c < |p.columns| && Extends(before, after) && IsColumnOf(p, c, before, column)
    ensures IsColumnOf(p, c, after, column)
  {
    hide Extends, ArePanelsOf;
    ExtendedPanels(before, after, column.panelIds, p.columns[c]);
  }

  lemma {:induction false} ColumnIsOf(p: Definition, c: nat, instances: map<PanelId, Instance>, ids: seq<PanelId>)
    requires c < |p.columns| && ArePanelsOf(instances, ids, p.columns[c]) && Distinct(ids)
    ensures IsColumnOf(p, c, instances, Column(Numbered(c + 1), WidthOf(p, c), ids, RowSizes(ids, RowOf(p, c), |ids|)))
  {
    hide RowSizes, Distinct, IsPanelOf;
    RowSizesMean(ids, RowOf(p, c), |ids|);
    assert ids[..|ids|] == ids;
  }

  lemma {:induction false} ColumnsAreOf(p: Definition, n: nat, allocate: Allocator)
    requires WellFormed(p) && n <= |p.columns| && BuildColumns(p, n, allocate).Some?
    ensures AreColumnsOf(p, n, BuildColumns(p, n, allocate).value)
  {
    hide AddEntries, Built, RowSizes, Distinct, Flat, DistinctKinds, IsColumnOf, ArePanelsOf, Extends, ColumnsBuilt, WidthOf, RowOf,
      RowOk;
    if n > 0 {
      var before := BuildColumns(p, n - 1, allocate).value;
      ColumnsAreOf(p, n - 1, allocate);
      ColumnsBuild(p, n - 1, allocate);
      FlatPrefix(p.columns, n);
      EntriesAddPanels(before, Flat(p.columns[..n - 1]), p.columns[n - 1], allocate);
      EntriesBuild(before, Flat(p.columns[..n - 1]), p.columns[n - 1], allocate);
      var (after, ids) := AddEntries(before, p.columns[n - 1], allocate).value;
      BuiltIsDistinct(after, Flat(p.columns[..n - 1]) + p.columns[n - 1]);
      DistinctTail(before.instances.keys, ids);
      ColumnIsOf(p, n - 1, after.instances.values, ids);
      forall c | 0 <= c < n - 1
        ensures IsColumnOf(p, c, after.instances.values, before.columns[c])
      {
        ExtendedColumn(p, c, before.instances.values, after.instances.values, before.columns[c]);
      }
    }
  }

  /** A preset has a panel for each entry where the definition has it, the first
      panel is focused, and the first terminal, if any, is the owner. */
  lemma {:induction false} PresetMeans(p: Definition, allocate: Allocator)
    requires WellFormed(p) && Preset(p, allocate).Some?
    ensures var d := Preset(p, allocate).value;
      && d.name == p.name && |d.columns| == |p.columns| && d.floating == []
      && (forall c :: 0 <= c < |p.columns| ==> IsColumnOf(p, c, d.instances.values, d.columns[c]))
      && d.instances.keys == ColumnPanels(d.columns)
      && (p.columns[0] != [] ==> d.columns[0].panelIds != [] && d.focused == Some(d.columns[0].panelIds[0]))
      && IsFirstOf(d, Terminal, d.owner)
  {
    hide BuildColumns, IsFirstOf, Flat, DistinctKinds, RowOk, Built, SizesOk, Distinct, FirstOfKind;
    ColumnsAreOf(p, |p.columns|, allocate);
    ColumnsBuild(p, |p.columns|, allocate);
    var d := Preset(p, allocate).value;
    FirstInTable(d, Terminal);
    assert IsColumnOf(p, 0, d.instances.values, d.columns[0]);
  }

  lemma {:induction false} UnnumberedInFront(a: seq<Entry>, b: seq<Entry>)
    ensures AreUnnumbered(a + b) <==> AreUnnumbered(a) && AreUnnumbered(b)
  {
    if AreUnnumbered(a + b) {
      assert forall k :: 0 <= k < |a| ==> a[k] == (a + b)[k];
      assert forall k :: 0 <= k < |b| ==> b[k] == (a + b)[|a| + k];
    }
  }

  lemma {:induction false} NumbersFollow(p: Definition, n: nat, allocate: Allocator)
    requires WellFormed(p) && n <= |p.columns| && BuildColumns(p, n, allocate).Some? && AreUnnumbered(Flat(p.columns[..n]))
    ensures var b := BuildColumns(p, n, allocate).value;
      && b.next == |b.instances.keys| + 1
      && forall k :: 0 <= k < |b.instances.keys| ==> HasNumber(b.instances.keys[k], k + 1)
  {
    hide AddEntries, Built, RowSizes, Distinct, Flat, DistinctKinds, ArePanelsOf, Extends, ColumnsBuilt, WidthOf, RowOf, RowOk,
      HasNumber, AreUnnumbered;
    if n > 0 {
      var before := BuildColumns(p, n - 1, allocate).value;
      ColumnsBuild(p, n - 1, allocate);
      FlatPrefix(p.columns, n);
      UnnumberedInFront(Flat(p.columns[..n - 1]), p.columns[n - 1]);
      NumbersFollow(p, n - 1, allocate);
      EntriesAddPanels(before, Flat(p.columns[..n - 1]), p.columns[n - 1], allocate);
      EntriesBuild(before, Flat(p.columns[..n - 1]), p.columns[n - 1], allocate);
    }
  }

  /** Without numbers in the definition, panels are numbered from one in their order from left to right. */
  lemma {:induction false} PresetIsNumbered(p: Definition, allocate: Allocator)
    requires WellFormed(p) && Preset(p, allocate).Some? && AreUnnumbered(Flat(p.columns))
    ensures var d := Preset(p, allocate).value;
      && d.nextInstance == |d.instances.keys| + 1
      && forall k :: 0 <= k < |d.instances.keys| ==> HasNumber(d.instances.keys[k], k + 1)
  {
    hide BuildColumns, WellFormed, Flat, AreUnnumbered, HasNumber;
    assert p.columns[..|p.columns|] == p.columns;
    NumbersFollow(p, |p.columns|, allocate);
  }
}
