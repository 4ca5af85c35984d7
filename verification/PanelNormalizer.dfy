/** The loops that normalise a stored layout. */
module PanelNormalizer {
  import opened Outcomes
  import opened Records
  import opened PanelTypes
  import opened PanelOperations
  import opened PanelPresets
  import opened PanelNormalization

  method ReadInstances(raws: Record<PanelId, RawInstance>, configure: Configurer)
    returns (r: Option<Record<PanelId, Instance>>)
    requires raws.Valid()
    ensures r == NormalInstances(raws, Within(|raws.keys|, MAX_PANEL_INSTANCES), configure)
  {
    hide NormalInstance, InstanceList;
    var n := Within(|raws.keys|, MAX_PANEL_INSTANCES);
    var instances: Record<PanelId, Instance> := Empty();
    for i := 0 to n
      invariant NormalInstances(raws, i, configure) == Some(instances)
      invariant instances.Valid()
    {
      var id := raws.keys[i];
      var raw := raws.values[id];
      if raw.kind.Some? {
        var config := configure(raw.kind.value, id, raw.settings, InstanceList(instances));
        if config.None? {
          StoppedReading(raws, i + 1, n, configure);
          return None;
        }
        instances := instances.Set(id, NormalInstance(id, raw, raw.kind.value, config.value));
      }
    }
    r := Some(instances);
  }

  lemma {:induction false} StoppedReading(raws: Record<PanelId, RawInstance>, k: nat, n: nat, configure: Configurer)
    requires raws.Valid() && k <= n <= |raws.keys| && NormalInstances(raws, k, configure).None?
    ensures NormalInstances(raws, n, configure).None?
    decreases n
  {
    hide NormalInstance, InstanceList;
    if k < n {
      StoppedReading(raws, k, n - 1, configure);
    }
  }

  /** `seen` has the elements of `list`. */
  ghost predicate Marks(seen: set<PanelId>, list: seq<PanelId>) {
    forall id :: id in seen <==> id in list
  }

  /** Takes identifiers that are known and not seen yet, and marks them as seen. */
  method TakeUnseen(ids: seq<PanelId>, known: set<PanelId>, before: set<PanelId>, ghost list: seq<PanelId>)
    returns (taken: seq<PanelId>, seen: set<PanelId>)
    requires Marks(before, list)
    ensures taken == TakeNew(ids, known, list) && Marks(seen, list + taken)
  {
    taken, seen := [], before;
    for k := 0 to |ids|
      invariant taken == TakeNew(ids[..k], known, list) && Marks(seen, list + taken)
    {
      assert ids[..k + 1][..k] == ids[..k];
      if ids[k] in known && ids[k] !in seen {
        taken := taken + [ids[k]];
        seen := seen + {ids[k]};
      }
    }
    assert ids[..|ids|] == ids;
  }

  method ReadColumns(raws: seq<RawColumn>, count: nat, known: set<PanelId>)
    returns (columns: seq<Column>, seen: set<PanelId>)
    requires count > 0
    ensures columns == NormalColumns(raws, count, known) && Marks(seen, ColumnPanels(columns))
  {
    hide WithNormalSizes, TakeNew;
    columns, seen := [], {};
    for c := 0 to |raws|
      invariant columns == NormalColumns(raws[..c], count, known) && Marks(seen, ColumnPanels(columns))
    {
      assert raws[..c + 1][..c] == raws[..c];
      var ids;
      ids, seen := TakeUnseen(raws[c].panelIds, known, seen, ColumnPanels(columns));
      NormalColumnKeepsIds(raws[c], |columns|, count, ids);
      ghost var front := columns;
      columns := columns + [NormalColumn(raws[c], |columns|, count, ids)];
      assert columns[..|columns| - 1] == front;
    }
    assert raws[..|raws|] == raws;
  }

  method PadColumns(columns: seq<Column>, count: nat) returns (padded: seq<Column>)
    requires count > 0
    ensures padded == Padded(columns, count)
  {
    padded := columns;
    while |padded| < count
      invariant Padded(padded, count) == Padded(columns, count)
      decreases count - |padded|
    {
      padded := padded + [Column(Numbered(|padded| + 1), 100.0 / count as real, [], Empty())];
    }
  }

  method ResizeColumns(before: seq<Column>) returns (columns: seq<Column>)
    ensures columns == Resized(before)
  {
    hide WithNormalSizes;
    columns := before;
    var c := 0;
    while c < |columns|
      invariant 0 <= c <= |columns| == |before|
      invariant forall i :: 0 <= i < c ==> columns[i] == WithNormalSizes(before[i])
      invariant forall i :: c <= i < |columns| ==> columns[i] == before[i]
    {
      columns := columns[c := WithNormalSizes(columns[c])];
      c := c + 1;
    }
  }

  method RewidenColumns(before: seq<Column>) returns (columns: seq<Column>)
    requires before != []
    ensures columns == Rewidened(before)
  {
    hide Share, BroadTotal;
    var total := 0.0;
    NothingBroad();
    assert before[..0] == [];
    for c := 0 to |before|
      invariant total == BroadTotal(before[..c])
    {
      NextBroad(before, c);
      total := total + Broad(before[c].width);
    }
    assert before[..|before|] == before;
    columns := before;
    var c := 0;
    while c < |columns|
      invariant 0 <= c <= |columns| == |before|
      invariant forall i :: 0 <= i < c ==> columns[i] == before[i].(width := Share(Broad(before[i].width), total))
      invariant forall i :: c <= i < |columns| ==> columns[i] == before[i]
    {
      columns := columns[c := columns[c].(width := Share(Broad(columns[c].width), total))];
      c := c + 1;
    }
  }

  lemma {:induction false} NothingBroad()
    ensures BroadTotal([]) == 0.0
  {
  }

  lemma {:induction false} NextBroad(columns: seq<Column>, c: nat)
    requires c < |columns|
    ensures BroadTotal(columns[..c + 1]) == BroadTotal(columns[..c]) + Broad(columns[c].width)
  {
    assert columns[..c + 1][..c] == columns[..c];
  }

  // --- Rectangles --------------------------------------------------------------------------------

  /** Some panels' rectangles deleted, or clamped when they float. */
  function Marked(values: map<PanelId, Instance>, ids: seq<PanelId>, floats: bool): map<PanelId, Instance> {
    map id | id in values ::
      if id in ids then values[id].(rect := SettledRect(values[id].rect, floats)) else values[id]
  }

  method MarkRects(before: map<PanelId, Instance>, ids: seq<PanelId>, floats: bool)
    returns (values: map<PanelId, Instance>)
    requires Distinct(ids) && forall id :: id in ids ==> id in before
    ensures values == Marked(before, ids, floats)
  {
    hide SettledRect;
    values := before;
    for k := 0 to |ids|
      invariant values == Marked(before, ids[..k], floats)
    {
      assert ids[k] !in ids[..k];
      assert ids[..k + 1] == ids[..k] + [ids[k]];
      values := values[ids[k] := values[ids[k]].(rect := SettledRect(values[ids[k]].rect, floats))];
    }
    assert ids[..|ids|] == ids;
  }

  lemma {:induction false} MarkedIsSettled(instances: Record<PanelId, Instance>, docked: seq<PanelId>, floating: seq<PanelId>, orphans: seq<PanelId>)
    requires instances.Valid()
    requires forall id :: id in instances.values ==> id in docked || id in floating || id in orphans
    requires forall id :: id in floating ==> id !in docked && id !in orphans
    ensures Marked(Marked(Marked(instances.values, docked, false), floating, true), orphans, false)
            == Settled(instances, floating).values
  {
  }

  // --- The document --------------------------------------------------------------------------------

  method PlacePanels(raw: RawDocument, instances: Record<PanelId, Instance>)
    returns (placed: Placement, settled: Record<PanelId, Instance>)
    requires raw.RawDocument? && instances.Valid()
    ensures placed == PlaceAll(raw, instances.keys, CountOf(raw))
    ensures settled == Settled(instances, placed.floating)
  {
    hide TakeNew, NormalColumns, Padded, Resized, Rewidened, ColumnPanels, Marked, Settled, Distinct;
    var count := CountOf(raw);
    var known := set id | id in instances.keys;
    var raws := if |raw.columns| <= count then raw.columns else raw.columns[..count];
    var read, seen := ReadColumns(raws, count, known);
    var columns := PadColumns(read, count);
    PaddedPanels(read, count);
    NormalColumnsPanels(raws, count, known);
    ghost var docked := ColumnPanels(columns);
    var values := MarkRects(instances.values, ColumnPanels(columns), false);
    var floating, orphans;
    floating, seen := TakeUnseen(raw.floating, known, seen, docked);
    TakeNewElements(raw.floating, known, docked);
    MarkedKeys(instances.values, docked, false);
    values := MarkRects(values, floating, true);
    orphans, seen := TakeUnseen(instances.keys, known, seen, docked + floating);
    TakeNewElements(instances.keys, known, docked + floating);
    MarkedKeys(Marked(instances.values, docked, false), floating, true);
    values := MarkRects(values, orphans, false);
    MarkedIsSettled(instances, docked, floating, orphans);
    settled := Record(instances.keys, values);
    assert settled == Settled(instances, floating) by { SettledParts(instances, floating); }
    columns := Adopted(columns, orphans);
    columns := ResizeColumns(columns);
    columns := RewidenColumns(columns);
    placed := Placement(columns, floating);
  }

  lemma {:induction false} MarkedKeys(values: map<PanelId, Instance>, ids: seq<PanelId>, floats: bool)
    ensures Marked(values, ids, floats).Keys == values.Keys
  {
  }

  lemma {:induction false} SettledParts(instances: Record<PanelId, Instance>, floating: seq<PanelId>)
    ensures Settled(instances, floating) == Record(instances.keys, Settled(instances, floating).values)
  {
  }

  method NormalizePanelLayoutDocument(raw: RawDocument, configure: Configurer, allocate: Allocator)
    returns (d: Option<Document>)
    requires raw.RawDocument? ==> raw.instances.Valid()
    ensures d == NormalizeDocument(raw, configure, allocate)
  {
    hide NormalInstances, PlaceAll, Settled, Preset, DefinitionOf, NormalOwner, Take;
    if raw.Unusable? {
      d := BuildPreset(DefinitionOf(Classic), allocate);
      return;
    }
    var instances := ReadInstances(raw.instances, configure);
    if instances.None? {
      return None;
    }
    if instances.value.keys == [] {
      d := BuildPreset(DefinitionOf(Classic), allocate);
      return;
    }
    var placed, settled := PlacePanels(raw, instances.value);
    d := Some(Document(
      if raw.name.Some? then Take(raw.name.value, 80) else "Workspace", |placed.columns|, placed.columns, placed.floating,
      settled,
      if raw.focused.Some? && raw.focused.value in instances.value.values then raw.focused else None,
      NormalOwner(raw.owner, settled),
      MaxInt(1, raw.nextInstance.GetOr(|instances.value.keys| + 1)),
      MaxInt(|placed.columns| + 1, raw.nextColumn.GetOr(|placed.columns| + 1))));
  }
}
