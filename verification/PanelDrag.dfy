/** Dock targets of a dragged panel, and what dropping on one does. */
module PanelDrag {
  import opened Outcomes
  import opened Records
  import opened PanelTypes
  import O = PanelOperations
  import opened PanelInvariant
  import opened PanelNormalization

  datatype Relation = Before | Between | After | EmptyColumn

  datatype DockTarget = DockTarget(
    column: ColumnId, columnIndex: nat, index: nat, relation: Relation, before: Option<PanelId>, after: Option<PanelId>)

  datatype DragSource = Docked(column: ColumnId, index: nat) | Floating(rect: Rect)

  function DockTargets(d: Document, id: ColumnId, columnIndex: nat): seq<DockTarget> {
    match O.FindColumn(d.columns, id)
    case None => []
    case Some(c) =>
      var ids := d.columns[c].panelIds;
      if ids == [] then [DockTarget(id, columnIndex, 0, EmptyColumn, None, None)]
      else seq(|ids| + 1, k requires 0 <= k <= |ids| => TargetAt(ids, id, columnIndex, k))
  }

  function TargetAt(ids: seq<PanelId>, id: ColumnId, columnIndex: nat, k: nat): DockTarget
    requires k <= |ids|
  {
    DockTarget(id, columnIndex, k, if k == 0 then Before else if k == |ids| then After else Between,
               if k > 0 then Some(ids[k - 1]) else None, if k < |ids| then Some(ids[k]) else None)
  }

  function IndexOf(ids: seq<PanelId>, id: PanelId): (k: Option<nat>)
    ensures k.Some? ==> k.value < |ids| && ids[k.value] == id && id !in ids[..k.value]
    ensures k.None? ==> id !in ids
  {
    if ids == [] then None
    else
      var front := IndexOf(ids[..|ids| - 1], id);
      if front.Some? then front else if ids[|ids| - 1] == id then Some(|ids| - 1) else None
  }

  function DockedSource(columns: seq<Column>, id: PanelId): Option<DragSource> {
    if columns == [] then None
    else
      var k := IndexOf(columns[0].panelIds, id);
      if k.Some? then Some(Docked(columns[0].id, k.value)) else DockedSource(columns[1..], id)
  }

  function Source(d: Document, id: PanelId): Option<DragSource> {
    if id in d.floating && d.Has(id) && d.At(id).rect.Some? then Some(Floating(d.At(id).rect.value))
    else DockedSource(d.columns, id)
  }

  /** Where to insert once the panel has been taken out. */
  function DockIndex(source: DragSource, target: DockTarget): nat {
    if source.Floating? || source.column != target.column then target.index
    else if source.index < target.index then target.index - 1
    else target.index
  }

  predicate IsNoOp(source: DragSource, target: DockTarget) {
    source.Docked? && source.column == target.column && source.index == DockIndex(source, target)
  }

  // --- Sources ----------------------------------------------------------------------------------

  /** The column and position a docked source names hold the panel. */
  predicate Holds(column: Column, source: DragSource, id: PanelId) {
    && source.Docked? && column.id == source.column
    && source.index < |column.panelIds| && column.panelIds[source.index] == id
  }

  lemma {:induction false} DockedSourceIsColumn(columns: seq<Column>, id: PanelId)
    ensures var s := DockedSource(columns, id);
      s.Some? ==> s.value.Docked? && (exists c :: 0 <= c < |columns| && Holds(columns[c], s.value, id))
    ensures DockedSource(columns, id).None? ==> id !in ColumnPanels(columns)
  {
    if columns == [] {
    } else if IndexOf(columns[0].panelIds, id).Some? {
      assert Holds(columns[0], DockedSource(columns, id).value, id);
    } else {
      DockedSourceIsColumn(columns[1..], id);
      FirstColumnPanels(columns);
      var s := DockedSource(columns, id);
      if s.Some? {
        var c :| 0 <= c < |columns[1..]| && Holds(columns[1..][c], s.value, id);
        assert Holds(columns[c + 1], s.value, id);
      }
    }
  }

  lemma {:induction false} LastColumnPanels(columns: seq<Column>, column: Column)
    ensures ColumnPanels(columns + [column]) == ColumnPanels(columns) + column.panelIds
  {
    assert (columns + [column])[..|columns|] == columns;
  }

  lemma {:induction false} NoColumnPanels()
    ensures ColumnPanels([]) == []
  {
  }

  lemma {:induction false} FirstColumnPanels(columns: seq<Column>)
    requires columns != []
    ensures ColumnPanels(columns) == columns[0].panelIds + ColumnPanels(columns[1..])
  {
    hide ColumnPanels;
    var front, column := columns[..|columns| - 1], columns[|columns| - 1];
    assert columns == front + [column];
    LastColumnPanels(front, column);
    if front == [] {
      assert columns[1..] == [];
      NoColumnPanels();
    } else {
      FirstColumnPanels(front);
      LastColumnPanels(front[1..], column);
      assert columns[1..] == front[1..] + [column];
    }
  }

  /** Every panel of a layout can be dragged. */
  lemma {:induction false} EveryPanelHasSource(d: Document, id: PanelId)
    requires Core(d) && d.Has(id)
    ensures Source(d, id).Some?
  {
    hide Sized, PlacedIn, ColumnPanels;
    PlacedPanels(d);
    DockedSourceIsColumn(d.columns, id);
    assert RectOk(d.At(id).rect, id in d.floating);
  }

  // --- Taking out and inserting in one list ------------------------------------------------------------

  lemma {:induction false} WithoutOne(ids: seq<PanelId>, i: nat)
    requires Distinct(ids) && i < |ids|
    ensures Without(ids, ids[i]) == ids[..i] + ids[i + 1..]
  {
    if i == |ids| - 1 {
      assert ids[i] !in ids[..i];
      WithoutAbsent(ids[..i], ids[i]);
      assert ids[i + 1..] == [];
    } else {
      var last := |ids| - 1;
      WithoutOne(ids[..last], i);
      assert ids[..last][i + 1..] + [ids[last]] == ids[i + 1..];
      assert ids[..last][..i] == ids[..i];
    }
  }

  /** Reinserting gives the old list exactly at the old position. */
  lemma {:induction false} ReinsertExactly(ids: seq<PanelId>, i: nat, k: nat)
    requires Distinct(ids) && i < |ids| && k < |ids|
    ensures |Without(ids, ids[i])| == |ids| - 1
    ensures Inserted(Without(ids, ids[i]), k, ids[i]) == ids <==> k == i
  {
    WithoutOne(ids, i);
    var rest := Without(ids, ids[i]);
    if k != i {
      assert Inserted(rest, k, ids[i])[k] == ids[i];
      assert ids[k] != ids[i];
    }
  }

  /** After the panel is taken out, the normalised position lies between the target's neighbours. */
  lemma {:induction false} NeighboursAfterRemoval(ids: seq<PanelId>, i: nat, t: nat)
    requires Distinct(ids) && i < |ids| && t <= |ids| && t != i && t != i + 1
    ensures var k := if i < t then t - 1 else t;
      var rest := Without(ids, ids[i]);
      && k <= |rest|
      && (t > 0 ==> k > 0 && rest[k - 1] == ids[t - 1])
      && (t < |ids| ==> k < |rest| && rest[k] == ids[t])
      && (t == 0 ==> k == 0) && (t == |ids| ==> k == |rest|)
  {
    WithoutOne(ids, i);
  }

  // --- Dropping ---------------------------------------------------------------------------------------

  function Order(columns: seq<Column>): (order: seq<seq<PanelId>>)
    ensures |order| == |columns|
  {
    seq(|columns|, i requires 0 <= i < |columns| => columns[i].panelIds)
  }

  function Dropped(d: Document, id: PanelId, source: DragSource, target: DockTarget): Document {
    O.MovePanel(d, id, target.column, Some(DockIndex(source, target))).document
  }

  /** Column `c` after the move: the others as they were, without the panel. */
  lemma {:induction false} MovedColumns(d: Document, id: PanelId, column: ColumnId, k: nat)
    requires d.Has(id) && O.FindColumn(d.columns, column).Some?
    ensures var c := O.FindColumn(d.columns, column).value;
      var d' := O.MovePanel(d, id, column, Some(k)).document;
      && |d'.columns| == |d.columns|
      && (forall i :: 0 <= i < |d.columns| && i != c ==> d'.columns[i].panelIds == Without(d.columns[i].panelIds, id))
      && (var rest := Without(d.columns[c].panelIds, id);
          d'.columns[c].panelIds == Inserted(rest, Clamp(k, |rest|), id))
      && d'.floating == Without(d.floating, id)
  {
    hide Without, Inserted, O.NormalizedColumn;
    var c := O.FindColumn(d.columns, column).value;
    var removed := O.RemoveFromColumns(d.columns, id);
    forall i | 0 <= i < |d.columns|
      ensures removed[i].panelIds == Without(d.columns[i].panelIds, id)
    {
      RemovedColumn(d.columns, id, i);
      NormalizedKeepsPanels(d.columns[i].(panelIds := Without(d.columns[i].panelIds, id), sizes := d.columns[i].sizes.Delete(id)));
    }
    var rest := removed[c].panelIds;
    NormalizedKeepsPanels(removed[c].(panelIds := Inserted(rest, Clamp(k, |rest|), id)));
  }

  lemma {:induction false} InsertedThenWithout(s: seq<PanelId>, k: nat, x: PanelId)
    requires k <= |s|
    ensures Without(Inserted(s, k, x), x) == Without(s, x)
  {
    WithoutConcatenation(s[..k], [x] + s[k..], x);
    WithoutConcatenation([x], s[k..], x);
    WithoutConcatenation(s[..k], s[k..], x);
    assert [x][..0] == [];
    assert s == s[..k] + s[k..];
    assert Inserted(s, k, x) == s[..k] + ([x] + s[k..]);
  }

  lemma {:induction false} WithoutConcatenation(a: seq<PanelId>, b: seq<PanelId>, x: PanelId)
    ensures Without(a + b, x) == Without(a, x) + Without(b, x)
  {
    if b == [] {
      assert a + b == a;
    } else {
      var last := |b| - 1;
      WithoutConcatenation(a, b[..last], x);
      assert (a + b)[..|a + b| - 1] == a + b[..last];
    }
  }

  lemma {:induction false} WithoutTwice(s: seq<PanelId>, x: PanelId)
    ensures Without(Without(s, x), x) == Without(s, x)
  {
    WithoutElements(s, x);
    WithoutAbsent(Without(s, x), x);
  }

  /** A drop keeps the order of all other panels, in every column and among the floating ones. */
  lemma {:induction false} DropKeepsOthers(d: Document, id: PanelId, source: DragSource, target: DockTarget)
    requires d.Has(id) && O.FindColumn(d.columns, target.column).Some?
    ensures var d' := Dropped(d, id, source, target);
      && |d'.columns| == |d.columns|
      && (forall i :: 0 <= i < |d.columns| ==>
            Without(d'.columns[i].panelIds, id) == Without(d.columns[i].panelIds, id))
      && Without(d'.floating, id) == Without(d.floating, id)
  {
    hide Without, Inserted;
    var k := DockIndex(source, target);
    var c := O.FindColumn(d.columns, target.column).value;
    MovedColumns(d, id, target.column, k);
    var rest := Without(d.columns[c].panelIds, id);
    InsertedThenWithout(rest, Clamp(k, |rest|), id);
    forall i | 0 <= i < |d.columns|
      ensures Without(Dropped(d, id, source, target).columns[i].panelIds, id) == Without(d.columns[i].panelIds, id)
    {
      WithoutTwice(d.columns[i].panelIds, id);
    }
    WithoutTwice(d.floating, id);
  }

  /** The panel is in one place only. */
  lemma {:induction false} ElsewhereAbsent(d: Document, id: PanelId, c: nat)
    requires Core(d) && d.Has(id) && c < |d.columns| && id in d.columns[c].panelIds
    ensures id !in d.floating
    ensures forall i :: 0 <= i < |d.columns| && i != c ==> id !in d.columns[i].panelIds
  {
    hide Sized, PlacedIn;
    CountOne(d.instances.keys, id);
    assert Placed(d)[id] == 1;
    SplitAt(d.columns, c);
    assert id in multiset(d.columns[c].panelIds);
    assert id in d.floating <==> id in multiset(d.floating);
    forall i | 0 <= i < |d.columns| && i != c
      ensures id !in d.columns[i].panelIds
    {
      TwoColumns(d.columns, i, c);
      assert id in d.columns[i].panelIds <==> id in multiset(d.columns[i].panelIds);
    }
  }

  lemma {:induction false} TwoColumns(columns: seq<Column>, i: nat, c: nat)
    requires i < |columns| && c < |columns| && i != c
    ensures multiset(columns[i].panelIds) + multiset(columns[c].panelIds) <= PlacedIn(columns)
  {
    hide PlacedIn;
    SplitAt(columns, c);
    if i < c {
      ColumnWithin(columns[..c], i);
    } else {
      ColumnWithin(columns[c + 1..], i - c - 1);
    }
  }

  /** The column that the panel's source names is found where the panel is. */
  predicate IsFound(d: Document, id: PanelId)
    requires Source(d, id).Some?
  {
    var s := Source(d, id).value;
    s.Docked? ==>
      && O.FindColumn(d.columns, s.column).Some?
      && id in d.columns[O.FindColumn(d.columns, s.column).value].panelIds
  }

  /** No two columns share an identifier. */
  predicate ColumnsDistinct(d: Document) {
    forall i, j :: 0 <= i < j < |d.columns| ==> d.columns[i].id != d.columns[j].id
  }

  /** If no two columns share an identifier, every panel is found. */
  lemma {:induction false} DistinctColumnsAreFound(d: Document, id: PanelId)
    requires ColumnsDistinct(d) && Source(d, id).Some?
    ensures IsFound(d, id)
  {
    var s := Source(d, id).value;
    if s.Docked? {
      DockedSourceIsColumn(d.columns, id);
      var o :| 0 <= o < |d.columns| && Holds(d.columns[o], s, id);
      assert O.FindColumn(d.columns, s.column) == Some(o);
    }
  }

  /** The source of a docked panel is the column it is in, if that is found. */
  lemma {:induction false} DockedPosition(d: Document, id: PanelId, target: DockTarget)
    requires Core(d) && d.Has(id) && Source(d, id).Some? && Source(d, id).value.Docked?
    requires O.FindColumn(d.columns, target.column).Some?
    ensures var s := Source(d, id).value;
      var c := O.FindColumn(d.columns, target.column).value;
      && (s.column == target.column && IsFound(d, id) ==>
            s.index < |d.columns[c].panelIds| && d.columns[c].panelIds[s.index] == id)
      && (s.column != target.column || !IsFound(d, id) ==> id !in d.columns[c].panelIds)
  {
    hide Sized, PlacedIn;
    var s := Source(d, id).value;
    var c := O.FindColumn(d.columns, target.column).value;
    DockedSourceIsColumn(d.columns, id);
    var o :| 0 <= o < |d.columns| && Holds(d.columns[o], s, id);
    ElsewhereAbsent(d, id, o);
  }

  lemma {:induction false} ColumnIsDistinct(d: Document, c: nat)
    requires Core(d) && c < |d.columns|
    ensures Distinct(d.columns[c].panelIds)
  {
    assert Sized(d.columns[c]);
  }

  /** A drop leaves every column and the floating list as they were if and
      only if the drag model calls it a no-op and finds the panel. */
  lemma {:induction false} NoOpExactly(d: Document, id: PanelId, columnIndex: nat, column: ColumnId, target: DockTarget)
    requires Core(d) && d.Has(id) && Source(d, id).Some?
    requires target in DockTargets(d, column, columnIndex)
    ensures var d' := Dropped(d, id, Source(d, id).value, target);
      IsNoOp(Source(d, id).value, target) && IsFound(d, id)
      <==> Order(d'.columns) == Order(d.columns) && d'.floating == d.floating
  {
    hide Sized, PlacedIn, Without, Inserted, Source, IsFound, Core, IndexOf;
    TargetParts(d, column, columnIndex, target);
    var s := Source(d, id).value;
    var c := O.FindColumn(d.columns, column).value;
    var k := DockIndex(s, target);
    var ids := d.columns[c].panelIds;
    var d' := Dropped(d, id, s, target);
    MovedColumns(d, id, column, k);
    ColumnIsDistinct(d, c);
    if s.Docked? {
      DockedPosition(d, id, target);
      if s.column == column && IsFound(d, id) {
        ReinsertExactly(ids, s.index, k);
        SameColumnOrder(d, d', id, c);
      } else {
        OtherColumnChanges(d, d', id, c, k);
      }
    } else {
      FloatingSource(d, id);
      WithoutElements(d.floating, id);
    }
  }

  lemma {:induction false} FloatingSource(d: Document, id: PanelId)
    requires Source(d, id).Some? && Source(d, id).value.Floating?
    ensures id in d.floating
  {
    DockedSourceIsColumn(d.columns, id);
  }

  lemma {:induction false} TargetParts(d: Document, column: ColumnId, columnIndex: nat, target: DockTarget)
    requires target in DockTargets(d, column, columnIndex)
    ensures O.FindColumn(d.columns, column).Some? && target.column == column
    ensures var ids := d.columns[O.FindColumn(d.columns, column).value].panelIds;
      target.index <= |ids|
      && target.before == (if target.index > 0 then Some(ids[target.index - 1]) else None)
      && target.after == (if target.index < |ids| then Some(ids[target.index]) else None)
  {
  }

  /** Nothing but the column itself is at stake when a panel stays in its column. */
  lemma {:induction false} SameColumnOrder(d: Document, d': Document, id: PanelId, c: nat)
    requires Core(d) && d.Has(id) && c < |d.columns| && id in d.columns[c].panelIds
    requires |d'.columns| == |d.columns| && d'.floating == Without(d.floating, id)
    requires forall i :: 0 <= i < |d.columns| && i != c ==> d'.columns[i].panelIds == Without(d.columns[i].panelIds, id)
    ensures Order(d'.columns) == Order(d.columns) && d'.floating == d.floating
            <==> d'.columns[c].panelIds == d.columns[c].panelIds
  {
    hide Without, Core;
    ElsewhereAbsent(d, id, c);
    WithoutAbsent(d.floating, id);
    forall i | 0 <= i < |d.columns| && i != c
      ensures d'.columns[i].panelIds == d.columns[i].panelIds
    {
      WithoutAbsent(d.columns[i].panelIds, id);
    }
    if Order(d'.columns) == Order(d.columns) {
      assert Order(d'.columns)[c] == Order(d.columns)[c];
    }
  }

  lemma {:induction false} OtherColumnChanges(d: Document, d': Document, id: PanelId, c: nat, k: nat)
    requires c < |d.columns| && id !in d.columns[c].panelIds && |d'.columns| == |d.columns|
    requires var rest := Without(d.columns[c].panelIds, id); d'.columns[c].panelIds == Inserted(rest, Clamp(k, |rest|), id)
    ensures Order(d'.columns) != Order(d.columns)
  {
    var rest := Without(d.columns[c].panelIds, id);
    assert d'.columns[c].panelIds[Clamp(k, |rest|)] == id;
    assert id in Order(d'.columns)[c] && id !in Order(d.columns)[c];
  }

  /** The panel is at position `k`, directly between two neighbours or at the ends. */
  predicate LiesBetween(ids: seq<PanelId>, k: nat, id: PanelId, before: Option<PanelId>, after: Option<PanelId>) {
    && k < |ids| && ids[k] == id
    && (if before.Some? then k > 0 && ids[k - 1] == before.value else k == 0)
    && (if after.Some? then k + 1 < |ids| && ids[k + 1] == after.value else k + 1 == |ids|)
  }

  lemma {:induction false} LandsInItsColumn(ids: seq<PanelId>, i: nat, t: nat)
    requires Distinct(ids) && i < |ids| && t <= |ids| && t != i && t != i + 1
    ensures var k := if i < t then t - 1 else t;
      var rest := Without(ids, ids[i]);
      && k <= |rest|
      && LiesBetween(Inserted(rest, k, ids[i]), k, ids[i], if t > 0 then Some(ids[t - 1]) else None,
                     if t < |ids| then Some(ids[t]) else None)
  {
    hide Without;
    NeighboursAfterRemoval(ids, i, t);
  }

  lemma {:induction false} LandsElsewhere(ids: seq<PanelId>, t: nat, id: PanelId)
    requires t <= |ids| && id !in ids
    ensures Without(ids, id) == ids
    ensures LiesBetween(Inserted(ids, t, id), t, id, if t > 0 then Some(ids[t - 1]) else None,
                        if t < |ids| then Some(ids[t]) else None)
  {
    WithoutAbsent(ids, id);
  }

  lemma {:induction false} LandsTooEarly(ids: seq<PanelId>, t: nat, id: PanelId)
    requires Distinct(ids) && 0 < t <= |ids| && id !in ids
    ensures Without(ids, id) == ids
    ensures !LiesBetween(Inserted(ids, t - 1, id), t - 1, id, Some(ids[t - 1]), if t < |ids| then Some(ids[t]) else None)
  {
    WithoutAbsent(ids, id);
    if t > 1 {
      assert Inserted(ids, t - 1, id)[t - 2] == ids[t - 2] != ids[t - 1];
    }
  }

  lemma {:induction false} FloatingIsFound(d: Document, id: PanelId)
    requires Source(d, id).Some? && Source(d, id).value.Floating?
    ensures IsFound(d, id)
  {
  }

  /** Any other drop puts the panel directly between the target's neighbours,
      unless the panel is not found and its position would be counted as one before the target's. */
  lemma {:induction false} DropLandsBetweenExactly(d: Document, id: PanelId, columnIndex: nat, column: ColumnId, target: DockTarget)
    requires Core(d) && d.Has(id) && Source(d, id).Some?
    requires target in DockTargets(d, column, columnIndex)
    requires !IsNoOp(Source(d, id).value, target)
    ensures O.FindColumn(d.columns, column).Some?
    ensures var s := Source(d, id).value;
      LiesBetween(
        Dropped(d, id, s, target).columns[O.FindColumn(d.columns, column).value].panelIds,
        DockIndex(s, target), id, target.before, target.after)
      <==> IsFound(d, id) || s.column != column || target.index <= s.index
  {
    hide Sized, PlacedIn, Without, Source, IsFound, Core, IndexOf, LiesBetween, Inserted, Distinct, DockTargets,
      O.MovePanel, O.FindColumn;
    TargetParts(d, column, columnIndex, target);
    var s := Source(d, id).value;
    var c := O.FindColumn(d.columns, column).value;
    var ids := d.columns[c].panelIds;
    MovedColumns(d, id, column, DockIndex(s, target));
    ColumnIsDistinct(d, c);
    if s.Docked? {
      DockedPosition(d, id, target);
    } else {
      FloatingIsFound(d, id);
      FloatingIsNotDocked(d, id, c);
    }
    if s.Docked? && s.column == column && IsFound(d, id) {
      LandsInItsColumn(ids, s.index, target.index);
    } else if s.Docked? && s.column == column && s.index < target.index {
      LandsTooEarly(ids, target.index, id);
    } else {
      LandsElsewhere(ids, target.index, id);
    }
  }

  lemma {:induction false} FloatingIsNotDocked(d: Document, id: PanelId, c: nat)
    requires Core(d) && d.Has(id) && c < |d.columns| && Source(d, id).Some? && Source(d, id).value.Floating?
    ensures id !in d.columns[c].panelIds
  {
    hide Core;
    FloatingSource(d, id);
    if id in d.columns[c].panelIds {
      ElsewhereAbsent(d, id, c);
    }
  }

  lemma {:induction false} TargetAtIndex(d: Document, column: ColumnId, columnIndex: nat, k: nat) returns (target: DockTarget)
    requires O.FindColumn(d.columns, column).Some? && k <= |d.columns[O.FindColumn(d.columns, column).value].panelIds|
    ensures target in DockTargets(d, column, columnIndex) && target.index == k && target.column == column
  {
    target := DockTargets(d, column, columnIndex)[k];
  }

  /** Every panel that is found can be dropped at every position of every column. */
  lemma {:induction false} EveryPlaceIsOffered(d: Document, id: PanelId, columnIndex: nat, column: ColumnId, k: nat)
      returns (target: DockTarget)
    requires Core(d) && d.Has(id) && Source(d, id).Some? && IsFound(d, id) && O.FindColumn(d.columns, column).Some?
    requires k <= |Without(d.columns[O.FindColumn(d.columns, column).value].panelIds, id)|
    ensures target in DockTargets(d, column, columnIndex)
    ensures var c := O.FindColumn(d.columns, column).value;
      var rest := Without(d.columns[c].panelIds, id);
      Dropped(d, id, Source(d, id).value, target).columns[c].panelIds == rest[..k] + [id] + rest[k..]
  {
    hide Sized, PlacedIn, Without, Source, IsFound, Core, IndexOf, Distinct, DockTargets, O.MovePanel, O.FindColumn;
    var s := Source(d, id).value;
    var c := O.FindColumn(d.columns, column).value;
    var ids := d.columns[c].panelIds;
    ColumnIsDistinct(d, c);
    if s.Docked? && s.column == column {
      target := TargetAtIndex(d, column, columnIndex, 0);
      DockedPosition(d, id, target);
      ReinsertExactly(ids, s.index, s.index);
      target := TargetAtIndex(d, column, columnIndex, if k <= s.index then k else k + 1);
    } else {
      target := TargetAtIndex(d, column, columnIndex, 0);
      if s.Docked? {
        DockedPosition(d, id, target);
      } else {
        FloatingIsNotDocked(d, id, c);
      }
      WithoutAbsent(ids, id);
      target := TargetAtIndex(d, column, columnIndex, k);
    }
    MovedColumns(d, id, column, DockIndex(s, target));
  }

  // --- A repeated column identifier -----------------------------------------------------------------

  function OneCode(sequence: int): Instance {
    Instance(Generated(Code, sequence), Code, "Code", false, None, Plain(Code, ""))
  }

  function OneColumn(id: PanelId): Column {
    Column(Numbered(1), 50.0, [id], Record([id], map[id := 100.0]))
  }

  /** Two columns of one panel each, with one identifier, as storage may hold them. */
  function RepeatedColumns(): Document {
    var a, b := Generated(Code, 1), Generated(Code, 2);
    Document("", 2, [OneColumn(a), OneColumn(b)], [], Record([a, b], map[a := OneCode(1), b := OneCode(2)]),
             None, None, 3, 3)
  }

  lemma {:induction false} OneColumnIsSized(id: PanelId)
    ensures Sized(OneColumn(id))
  {
    assert [id][..0] == [];
    assert TotalOf([id], map[id := 100.0]) == TotalOf([id][..0], map[id := 100.0]) + 100.0;
  }

  lemma {:induction false} RepeatedColumnsArePlaced()
    ensures PlacementOk(RepeatedColumns())
  {
    var d := RepeatedColumns();
    var a, b := Generated(Code, 1), Generated(Code, 2);
    assert d.columns[..1] == [OneColumn(a)] && d.columns[..1][..0] == [];
    assert PlacedIn(d.columns[..1]) == multiset{a};
    assert multiset(d.instances.keys) == multiset{a, b};
  }

  lemma {:induction false} RepeatedInstances()
    ensures InstancesOk(RepeatedColumns().instances)
    ensures RectsOk(RepeatedColumns().instances.values, [])
    ensures OwnerOk(None, RepeatedColumns().instances.values)
  {
  }

  lemma {:induction false} RepeatedColumnsAreCore()
    ensures Core(RepeatedColumns())
  {
    OneColumnIsSized(Generated(Code, 1));
    OneColumnIsSized(Generated(Code, 2));
    RepeatedColumnsArePlaced();
    RepeatedInstances();
    hide Sized, PlacementOk, InstancesOk, RectsOk, OwnerOk, OneCode, OneColumn;
  }

  /** There a drop of the second panel in front of the first is called a no-op, and moves it. */
  lemma {:induction false} RepeatedColumnsMislead()
    ensures var d, id := RepeatedColumns(), Generated(Code, 2);
      var target := DockTarget(Numbered(1), 0, 0, Before, None, Some(Generated(Code, 1)));
      && Core(d) && Source(d, id).Some? && target in DockTargets(d, Numbered(1), 0)
      && IsNoOp(Source(d, id).value, target)
      && Order(Dropped(d, id, Source(d, id).value, target).columns) != Order(d.columns)
  {
    hide Core, Dropped, Sized;
    RepeatedColumnsAreCore();
    var d, id := RepeatedColumns(), Generated(Code, 2);
    var target := DockTarget(Numbered(1), 0, 0, Before, None, Some(Generated(Code, 1)));
    assert DockTargets(d, Numbered(1), 0)[0] == target;
    NotBefore(id);
    assert DockedSource(d.columns[1..], id) == Some(Docked(Numbered(1), 0));
    assert Source(d, id) == Some(Docked(Numbered(1), 0));
    assert !IsFound(d, id);
    NoOpExactly(d, id, 0, Numbered(1), target);
    assert Dropped(d, id, Source(d, id).value, target).floating == [] by { Unfloated(d, id, target); }
  }

  lemma {:induction false} NotBefore(id: PanelId)
    ensures IndexOf([id], id) == Some(0)
    ensures forall other :: other != id ==> IndexOf([other], id) == None
  {
    assert [id][..0] == [];
    forall other | other != id
      ensures IndexOf([other], id) == None
    {
      assert [other][..0] == [];
    }
  }

  lemma {:induction false} Unfloated(d: Document, id: PanelId, target: DockTarget)
    requires d.Has(id) && Source(d, id).Some? && d.floating == [] && O.FindColumn(d.columns, target.column).Some?
    ensures Dropped(d, id, Source(d, id).value, target).floating == []
  {
    MovedColumns(d, id, target.column, DockIndex(Source(d, id).value, target));
  }
}
