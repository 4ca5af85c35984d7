/** Saving a view and restoring it: what comes back, and when it is the same. */
module PanelRestoring {
  import opened Outcomes
  import opened Records
  import opened PanelTypes
  import opened PanelOperations
  import opened PanelInvariant
  import opened PanelReducers
  import opened PanelPresets
  import opened PanelNormalization
  import opened PanelState
  import opened PanelRuns

  // --- Sizes ----------------------------------------------------------------------------------

  /** Sizes of at least a tenth. */
  ghost predicate Roomy(column: Column) {
    Sized(column) && forall id :: id in column.sizes.values ==> column.sizes.values[id] >= 0.1
  }

  lemma {:induction false} RoomyIsNormal(column: Column)
    requires Roomy(column)
    ensures WithNormalSizes(column) == column
  {
    assert Raised(column.panelIds, column.sizes.values) == column.sizes;
    SizedIsNormalized(column);
  }

  lemma {:induction false} RoomyResize(columns: seq<Column>)
    requires forall i :: 0 <= i < |columns| ==> Roomy(columns[i])
    ensures Resized(columns) == columns
  {
    hide WithNormalSizes, Roomy;
    forall i | 0 <= i < |columns|
      ensures Resized(columns)[i] == columns[i]
    {
      RoomyIsNormal(columns[i]);
    }
  }

  lemma {:induction false} RaisedIsMore(all: seq<PanelId>, ids: seq<PanelId>, sizes: map<PanelId, real>)
    requires forall id :: id in ids ==> id in all && id in sizes
    ensures TotalWeight(ids, Raised(all, sizes)) >= TotalOf(ids, sizes)
    ensures (exists id :: id in ids && sizes[id] < 0.1) ==> TotalWeight(ids, Raised(all, sizes)) > TotalOf(ids, sizes)
  {
    if ids != [] {
      RaisedIsMore(all, ids[..|ids| - 1], sizes);
    }
  }

  lemma {:induction false} ShareShrinks(x: real, total: real)
    requires x > 0.0 && total >= 100.0
    ensures Share(x, total) <= x
    ensures total > 100.0 ==> Share(x, total) < x
  {
    var y := x / total;
    assert y * total == x && y > 0.0;
    assert y * total >= y * 100.0;
    assert total > 100.0 ==> y * total > y * 100.0;
  }

  /** Renormalising raises no size above a tenth, and lowers all of those if one is smaller. */
  lemma {:induction false} SizesShrink(column: Column, id: PanelId)
    requires Sized(column) && id in column.panelIds
    ensures Sized(WithNormalSizes(column))
    ensures id in WithNormalSizes(column).sizes.values && id in column.sizes.values
    ensures WithNormalSizes(column).sizes.values[id] <= Max(0.1, column.sizes.values[id])
    ensures !Roomy(column) ==> WithNormalSizes(column).sizes.values[id] < Max(0.1, column.sizes.values[id])
  {
    hide Share;
    var raised := Raised(column.panelIds, column.sizes.values);
    var total := TotalWeight(column.panelIds, raised);
    SizedIsDistinct(column);
    RaisedIsMore(column.panelIds, column.panelIds, column.sizes.values);
    NormalSizesKeepPanels(column);
    SharesOfDistinct(column.panelIds, raised, total);
    ShareShrinks(Max(0.1, column.sizes.values[id]), total);
    assert id in Shares(column.panelIds, raised, total).keys;
  }

  /** What is more than a tenth for each has an element above a tenth. */
  lemma {:induction false} LargeSize(ids: seq<PanelId>, values: map<PanelId, real>) returns (id: PanelId)
    requires (forall id :: id in ids ==> id in values) && TotalOf(ids, values) > 0.1 * |ids| as real
    ensures id in ids && values[id] > 0.1
  {
    id := ids[|ids| - 1];
    if values[id] <= 0.1 {
      id := LargeSize(ids[..|ids| - 1], values);
    }
  }

  lemma {:induction false} CrampedSizesChange(column: Column)
    requires Sized(column) && |column.panelIds| <= MAX_PANEL_INSTANCES && !Roomy(column)
    ensures WithNormalSizes(WithNormalSizes(column)) != column
  {
    hide WithNormalSizes;
    var id := LargeSize(column.panelIds, column.sizes.values);
    NormalSizesKeepPanels(column);
    SizesShrink(column, id);
    SizesShrink(WithNormalSizes(column), id);
  }

  lemma {:induction false} ColumnIsPlaced(columns: seq<Column>, i: nat)
    requires i < |columns|
    ensures |columns[i].panelIds| <= |PlacedIn(columns)|
  {
    if i < |columns| - 1 {
      ColumnIsPlaced(columns[..|columns| - 1], i);
    }
  }

  /** No column holds more panels than there may be. */
  lemma {:induction false} ColumnIsSmall(d: Document, i: nat)
    requires Core(d) && i < |d.columns|
    ensures |d.columns[i].panelIds| <= MAX_PANEL_INSTANCES
  {
    hide PlacedIn;
    ColumnIsPlaced(d.columns, i);
    assert |Placed(d)| == |multiset(d.instances.keys)|;
  }

  // --- Widths -----------------------------------------------------------------------------------

  /** Widths of at least a tenth that make up 100. */
  ghost predicate Wide(columns: seq<Column>) {
    WidthTotal(columns) == 100.0 && forall i :: 0 <= i < |columns| ==> columns[i].width >= 0.1
  }

  lemma {:induction false} BroadIsMore(columns: seq<Column>)
    ensures BroadTotal(columns) >= WidthTotal(columns)
    ensures BroadTotal(columns) == WidthTotal(columns) <==> forall i :: 0 <= i < |columns| ==> columns[i].width >= 0.1
  {
    if columns != [] {
      var front := columns[..|columns| - 1];
      BroadIsMore(front);
      assert forall i :: 0 <= i < |front| ==> front[i] == columns[i];
      assert Broad(columns[|front|].width) == columns[|front|].width <==> columns[|front|].width >= 0.1;
    }
  }

  lemma {:induction false} RewidenedTotal(columns: seq<Column>, total: real, scaled: seq<Column>)
    requires total > 0.0 && |scaled| == |columns|
    requires forall i :: 0 <= i < |columns| ==> scaled[i].width == Share(Broad(columns[i].width), total)
    ensures WidthTotal(scaled) == Share(BroadTotal(columns), total)
  {
    hide Share, Broad;
    if columns == [] {
      ShareOfNothing(total);
    } else {
      var last := |columns| - 1;
      RewidenedTotal(columns[..last], total, scaled[..last]);
      ShareAdds(BroadTotal(columns[..last]), Broad(columns[last].width), total);
    }
  }

  lemma {:induction false} LargeWidth(columns: seq<Column>) returns (i: nat)
    requires WidthTotal(columns) > 0.1 * |columns| as real
    ensures i < |columns| && columns[i].width > 0.1
  {
    i := |columns| - 1;
    if columns[i].width <= 0.1 {
      i := LargeWidth(columns[..i]);
    }
  }

  /** Widths are left alone exactly when they are wide. */
  lemma {:induction false} WidthsStayExactly(columns: seq<Column>)
    requires 1 <= |columns| <= MAX_PANEL_COLUMNS
    ensures Rewidened(columns) == columns <==> Wide(columns)
  {
    hide Share, Broad, BroadTotal, WidthTotal;
    var total := BroadTotal(columns);
    BroadIsMore(columns);
    if Wide(columns) {
      forall i | 0 <= i < |columns|
        ensures Rewidened(columns)[i] == columns[i]
      {
        BroadIsWidth(columns[i].width);
        ShareOfHundred(columns[i].width);
      }
    }
    if Rewidened(columns) == columns {
      RewidenedTotal(columns, total, columns);
      WholeShare(total);
      var i := LargeWidth(columns);
      BroadIsWidth(columns[i].width);
      ShareShrinks(columns[i].width, total);
      assert Share(Broad(columns[i].width), total) == Rewidened(columns)[i].width;
    }
  }

  lemma {:induction false} BroadIsWidth(width: real)
    requires width >= 0.1
    ensures Broad(width) == width
  {
  }

  lemma {:induction false} SameWidths(columns: seq<Column>, other: seq<Column>)
    requires |columns| == |other| && forall i :: 0 <= i < |columns| ==> columns[i].width == other[i].width
    ensures WidthTotal(columns) == WidthTotal(other)
    ensures Wide(columns) <==> Wide(other)
  {
    if columns != [] {
      SameWidths(columns[..|columns| - 1], other[..|other| - 1]);
    }
  }

  // --- Saving and restoring -------------------------------------------------------------------------

  /** Sizes and widths of at least a tenth, and widths that make up 100. */
  ghost predicate Presentable(d: Document) {
    (forall i :: 0 <= i < |d.columns| ==> Roomy(d.columns[i])) && Wide(d.columns)
  }

  /** Only sizes and widths differ. */
  ghost predicate SameArrangement(columns: seq<Column>, other: seq<Column>) {
    |columns| == |other| &&
    forall i :: 0 <= i < |columns| ==> columns[i].id == other[i].id && columns[i].panelIds == other[i].panelIds
  }

  lemma {:induction false} ResizedParts(columns: seq<Column>)
    ensures forall i :: 0 <= i < |columns| ==>
              && Resized(columns)[i].id == columns[i].id && Resized(columns)[i].panelIds == columns[i].panelIds
              && Resized(columns)[i].width == columns[i].width
  {
    hide WithNormalSizes;
    forall i | 0 <= i < |columns|
      ensures Resized(columns)[i].id == columns[i].id && Resized(columns)[i].panelIds == columns[i].panelIds
      ensures Resized(columns)[i].width == columns[i].width
    {
      NormalSizesKeepPanels(columns[i]);
    }
  }

  lemma {:induction false} RescaledParts(columns: seq<Column>)
    ensures SameArrangement(Rescaled(columns), columns)
    ensures WidthTotal(Resized(Resized(columns))) == WidthTotal(columns)
    ensures Wide(Resized(Resized(columns))) <==> Wide(columns)
  {
    hide Share, BroadTotal, WidthTotal, Resized, Wide;
    ResizedParts(columns);
    ResizedParts(Resized(columns));
    SameWidths(Resized(Resized(columns)), columns);
  }

  lemma {:induction false} RescaledIsSameExactly(d: Document)
    requires Core(d)
    ensures Rescaled(d.columns) == d.columns <==> Presentable(d)
  {
    hide Sized, PlacedIn, WithNormalSizes, Share, BroadTotal, Wide, Roomy;
    var columns := d.columns;
    var resized := Resized(Resized(columns));
    RescaledParts(columns);
    WidthsStayExactly(resized);
    if Presentable(d) {
      RoomyResize(columns);
    }
    if Rescaled(columns) == columns {
      forall i | 0 <= i < |columns|
        ensures Roomy(columns[i]) && resized[i] == columns[i]
      {
        assert resized[i].sizes == Rescaled(columns)[i].sizes;
        assert Sized(columns[i]);
        ColumnIsSmall(d, i);
        SameSizesAreRoomy(columns[i]);
      }
      assert resized == columns;
    }
  }

  lemma {:induction false} SameSizesAreRoomy(column: Column)
    requires Sized(column) && |column.panelIds| <= MAX_PANEL_INSTANCES
    requires WithNormalSizes(WithNormalSizes(column)).sizes == column.sizes
    ensures Roomy(column) && WithNormalSizes(WithNormalSizes(column)) == column
  {
    hide WithNormalSizes, Roomy, Sized;
    NormalSizesKeepPanels(column);
    NormalSizesKeepPanels(WithNormalSizes(column));
    if !Roomy(column) {
      CrampedSizesChange(column);
    }
  }

  // --- Twice over ---------------------------------------------------------------------------------------

  /** A size that has once been lowered does not come back. */
  lemma {:induction false} LoweredSize(column: Column, other: Column, id: PanelId)
    requires Sized(column) && Sized(other) && other.panelIds == column.panelIds && id in column.panelIds
    requires other.sizes == WithNormalSizes(WithNormalSizes(column)).sizes
    requires column.sizes.values[id] > 0.1 && !Roomy(column)
    ensures Sized(WithNormalSizes(other)) && Sized(WithNormalSizes(WithNormalSizes(other)))
    ensures WithNormalSizes(WithNormalSizes(other)).sizes.values[id] < column.sizes.values[id]
  {
    hide WithNormalSizes, Roomy;
    NormalSizesKeepPanels(column);
    NormalSizesKeepPanels(other);
    SizesShrink(column, id);
    SizesShrink(WithNormalSizes(column), id);
    SizesShrink(other, id);
    SizesShrink(WithNormalSizes(other), id);
  }

  lemma {:induction false} ReturnedSizesAreRoomy(column: Column, other: Column)
    requires Sized(column) && Sized(other) && other.panelIds == column.panelIds
    requires |column.panelIds| <= MAX_PANEL_INSTANCES
    requires other.sizes == WithNormalSizes(WithNormalSizes(column)).sizes
    requires WithNormalSizes(WithNormalSizes(other)).sizes == column.sizes
    ensures Roomy(column)
  {
    hide WithNormalSizes, Roomy;
    if column.panelIds == [] {
      RoomyIfEmpty(column);
    } else if !Roomy(column) {
      var id := LargeSize(column.panelIds, column.sizes.values);
      LoweredSize(column, other, id);
    }
  }

  lemma {:induction false} RoomyIfEmpty(column: Column)
    requires Sized(column) && column.panelIds == []
    ensures Roomy(column)
  {
  }

  /** The columns have the widths that the others are given. */
  ghost predicate HasWidthsOf(columns: seq<Column>, others: seq<Column>) {
    |columns| == |others| &&
    forall i :: 0 <= i < |columns| ==> columns[i].width == Share(Broad(others[i].width), BroadTotal(others))
  }

  lemma {:induction false} GivenWidths(columns: seq<Column>, others: seq<Column>)
    requires HasWidthsOf(columns, others) && others != []
    ensures WidthTotal(columns) == 100.0 && BroadTotal(columns) >= 100.0
  {
    hide Share, Broad, BroadTotal, WidthTotal;
    RewidenedTotal(others, BroadTotal(others), columns);
    WholeShare(BroadTotal(others));
    BroadIsMore(columns);
  }

  /** Widths come back from being shared out twice only if they are wide. */
  lemma {:induction false} ReturnedWidthsAreWide(columns: seq<Column>, others: seq<Column>)
    requires 1 <= |columns| <= MAX_PANEL_COLUMNS && HasWidthsOf(others, columns) && HasWidthsOf(columns, others)
    ensures Wide(columns)
  {
    hide Share, BroadTotal, WidthTotal;
    GivenWidths(columns, others);
    GivenWidths(others, columns);
    BroadIsMore(columns);
    if !Wide(columns) {
      var i := LargeWidth(columns);
      ShareShrinks(Broad(columns[i].width), BroadTotal(columns));
      ShareShrinks(Broad(others[i].width), BroadTotal(others));
    }
  }

  /** What comes back after two rescalings is the same exactly if it was presentable. */
  lemma {:induction false} RescaledTwiceIsSameExactly(d: Document, e: Document)
    requires Core(d) && Core(e) && e.columns == Rescaled(d.columns)
    ensures Rescaled(e.columns) == d.columns <==> Presentable(d)
  {
    hide Core, Rescaled, Presentable;
    RescaledIsSameExactly(d);
    if Presentable(d) {
      assert Rescaled(e.columns) == d.columns;
    } else if Rescaled(e.columns) == d.columns {
      ReturnedIsPresentable(d, e);
    }
  }

  lemma {:induction false} RescaledColumn(columns: seq<Column>, i: nat)
    requires i < |columns|
    ensures Rescaled(columns)[i].sizes == WithNormalSizes(WithNormalSizes(columns[i])).sizes
    ensures Rescaled(columns)[i].panelIds == columns[i].panelIds
  {
    hide WithNormalSizes, Share, BroadTotal;
    NormalSizesKeepPanels(columns[i]);
    NormalSizesKeepPanels(WithNormalSizes(columns[i]));
  }

  lemma {:induction false} RescaledWidths(columns: seq<Column>)
    ensures HasWidthsOf(Rescaled(columns), columns)
  {
    hide Share, Broad, WithNormalSizes, BroadTotal, Resized;
    var resized := Resized(Resized(columns));
    ResizedParts(columns);
    ResizedParts(Resized(columns));
    SameBroadTotal(resized, columns);
  }

  lemma {:induction false} SameBroadTotal(columns: seq<Column>, other: seq<Column>)
    requires |columns| == |other| && forall i :: 0 <= i < |columns| ==> columns[i].width == other[i].width
    ensures BroadTotal(columns) == BroadTotal(other)
  {
    if columns != [] {
      SameBroadTotal(columns[..|columns| - 1], other[..|other| - 1]);
    }
  }

  lemma {:induction false} ReturnedIsPresentable(d: Document, e: Document)
    requires Core(d) && Core(e) && e.columns == Rescaled(d.columns) && Rescaled(e.columns) == d.columns
    ensures Presentable(d)
  {
    hide Rescaled, Sized, Roomy, Wide, PlacedIn, WithNormalSizes, HasWidthsOf;
    forall i | 0 <= i < |d.columns|
      ensures Roomy(d.columns[i])
    {
      RescaledColumn(d.columns, i);
      RescaledColumn(e.columns, i);
      ColumnIsSmall(d, i);
      assert Sized(d.columns[i]) && Sized(e.columns[i]);
      ReturnedSizesAreRoomy(d.columns[i], e.columns[i]);
    }
    RescaledWidths(d.columns);
    RescaledWidths(e.columns);
    ReturnedWidthsAreWide(d.columns, e.columns);
  }

  // --- Restoring a saved view ---------------------------------------------------------------------------

  /** The same panels in the same places, with the same focus, owner and
      sequences: everything but sizes and widths. */
  ghost predicate Kept(d: Document, r: Document) {
    && r.columnCount == d.columnCount && SameArrangement(r.columns, d.columns) && r.floating == d.floating
    && SamePanels(r.instances, d.instances)
    && r.focused == d.focused && r.owner == d.owner
    && r.nextInstance == d.nextInstance && r.nextColumn == d.nextColumn
  }

  /** What normalising makes of a layout that has panels. */
  lemma {:induction false} NormalizedLayout(d: Document, configure: Configurer, allocate: Allocator)
    requires Core(d) && d.instances.keys != [] && KeepsKind(configure)
    requires NormalizeDocument(Saved(d), configure, allocate).Some?
    ensures var r := NormalizeDocument(Saved(d), configure, allocate).value;
      && r.columns == Rescaled(d.columns)
      && Kept(d.(nextInstance := MaxInt(1, d.nextInstance), nextColumn := MaxInt(|d.columns| + 1, d.nextColumn)), r)
  {
    hide PlaceAll, Settled, Sized, PlacedIn, NormalOwner, Take, NormalInstances, OwnerOk, Rescaled, SameArrangement;
    var n := |d.instances.keys|;
    assert Within(|Saved(d).instances.keys|, MAX_PANEL_INSTANCES) == n;
    var instances := NormalInstances(Saved(d).instances, n, configure).value;
    SavedPanels(d, configure);
    SavedPlacement(d);
    SettledIsValid(instances, d.floating);
    OwnerStays(d, Settled(instances, d.floating));
    RescaledParts(d.columns);
  }

  /** A layout without panels is replaced by the classic preset. */
  lemma {:induction false} EmptyBecomesClassic(d: Document, configure: Configurer, allocate: Allocator)
    requires Core(d) && d.instances.keys == []
    ensures NormalizeDocument(Saved(d), configure, allocate) == Preset(DefinitionOf(Classic), allocate)
  {
    hide Preset, DefinitionOf;
  }

  lemma {:induction false} KeptTwice(d: Document, e: Document, r: Document)
    requires Kept(d, e) && Kept(e, r)
    ensures Kept(d, r)
  {
  }

  lemma {:induction false} SavedIsCore(d: Document, configure: Configurer, allocate: Allocator)
    requires Core(d) && KeepsKind(configure) && NormalizeDocument(Saved(d), configure, allocate).Some?
    ensures Core(NormalizeDocument(Saved(d), configure, allocate).value)
    ensures Counted(NormalizeDocument(Saved(d), configure, allocate).value)
  {
    hide NormalizeDocument, Core, InvariantErrors, Preset, DefinitionOf;
    assert d.instances.Valid() by { CoreIsShaped(d); }
    NormalizedIsCore(Saved(d), configure, allocate);
    SavedIsCounted(d, configure, allocate);
  }

  lemma {:induction false} SavedIsCounted(d: Document, configure: Configurer, allocate: Allocator)
    requires d.instances.Valid() && NormalizeDocument(Saved(d), configure, allocate).Some?
    ensures Counted(NormalizeDocument(Saved(d), configure, allocate).value)
  {
    hide PlaceAll, Settled, NormalOwner, Take, NormalInstances, DefinitionOf, Preset, Core;
    if Preset(DefinitionOf(Classic), allocate).Some? {
      PresetsSatisfyInvariant(Classic, allocate);
    }
  }

  /** Normalised twice over, as saving and restoring do. */
  lemma {:induction false} NormalizedTwiceExactly(d: Document, e: Document, r: Document, configure: Configurer, allocate: Allocator)
    requires Core(d) && KeepsKind(configure)
    requires NormalizeDocument(Saved(d), configure, allocate) == Some(e)
    requires Core(e) && NormalizeDocument(Saved(e), configure, allocate) == Some(r)
    ensures Kept(d, r) <==> d.instances.keys != [] && Counted(d)
    ensures Kept(d, r) && r.columns == d.columns <==> d.instances.keys != [] && Counted(d) && Presentable(d)
  {
    hide NormalizeDocument, Core, Rescaled, Presentable, Preset, DefinitionOf, SameArrangement;
    SavedIsCore(d, configure, allocate);
    if d.instances.keys != [] {
      NormalizedLayout(d, configure, allocate);
      NormalizedLayout(e, configure, allocate);
      RescaledTwiceIsSameExactly(d, e);
      if Counted(d) {
        KeptTwice(d, e, r);
      }
      CountedExactly(d, e, r);
    } else {
      EmptyBecomesClassic(d, configure, allocate);
      ClassicHasPanels(allocate);
      NormalizedLayout(e, configure, allocate);
    }
  }

  /** Sequences that are counted are kept, and others are not. */
  lemma {:induction false} CountedExactly(d: Document, e: Document, r: Document)
    requires Counted(e) && |e.columns| == |d.columns|
    requires Kept(d.(nextInstance := MaxInt(1, d.nextInstance), nextColumn := MaxInt(|d.columns| + 1, d.nextColumn)), e)
    requires Kept(e.(nextInstance := MaxInt(1, e.nextInstance), nextColumn := MaxInt(|e.columns| + 1, e.nextColumn)), r)
    ensures Kept(d, r) <==> Counted(d)
  {
    var d' := d.(nextInstance := MaxInt(1, d.nextInstance), nextColumn := MaxInt(|d.columns| + 1, d.nextColumn));
    assert e.(nextInstance := MaxInt(1, e.nextInstance), nextColumn := MaxInt(|e.columns| + 1, e.nextColumn)) == e;
    KeptTwice(d', e, r);
    if Counted(d) {
      assert d' == d;
    }
  }

  /** The view can be saved, and restored. */
  ghost predicate CanSaveAndRestore(s: State, view: string, name: string, env: Environment)
    requires ShapedState(s)
  {
    && ViewName(name) != "" && (view in s.views.values || |s.viewOrder| < MAX_SAVED_PANEL_VIEWS)
    && var saved := NormalizeDocument(Saved(s.layout), env.configure, env.allocate);
      && saved.Some? && saved.value.instances.Valid()
      && NormalizeDocument(Saved(saved.value), env.configure, env.allocate).Some?
  }

  lemma {:induction false} SavedView(s: State, view: string, name: string, env: Environment)
    requires ShapedState(s) && CanSaveAndRestore(s, view, name, env)
    ensures var saved := NormalizeDocument(Saved(s.layout), env.configure, env.allocate).value;
      && ShapedState(Saving(s, view, name, env))
      && Restored(Saving(s, view, name, env), view, env).layout
         == NormalizeDocument(Saved(saved), env.configure, env.allocate).value
  {
    hide NormalizeDocument, Saved, ViewName;
  }

  /** Saving the layout as a view and restoring that keeps everything but sizes
      and widths exactly if the layout has panels and its sequences are counted, as they
      are in every run; and everything exactly if it is presentable besides. */
  lemma {:induction false} SaveThenRestoreExactly(s: State, view: string, name: string, env: Environment)
    requires Core(s.layout) && ShapedState(s) && KeepsKind(env.configure) && CanSaveAndRestore(s, view, name, env)
    ensures ShapedState(Saving(s, view, name, env))
    ensures var d, r := s.layout, Restored(Saving(s, view, name, env), view, env).layout;
      && (Kept(d, r) <==> d.instances.keys != [] && Counted(d))
      && (Kept(d, r) && r.columns == d.columns <==> d.instances.keys != [] && Counted(d) && Presentable(d))
  {
    hide NormalizeDocument, Core, Saving, Restored, ShapedState, ViewName, Presentable, Kept, Saved;
    var d := s.layout;
    CoreIsShaped(d);
    var saved := NormalizeDocument(Saved(d), env.configure, env.allocate).value;
    SavedView(s, view, name, env);
    SavedIsCore(d, env.configure, env.allocate);
    NormalizedTwiceExactly(d, saved, NormalizeDocument(Saved(saved), env.configure, env.allocate).value,
                           env.configure, env.allocate);
  }

  /** In runs without imports the sequences are always counted. */
  lemma {:induction false} RunRestoresExactly(start: State, actions: seq<Action>, view: string, name: string, env: Environment)
    requires AllInv(start) && AllAcceptable(actions) && NoImports(actions) && KeepsKind(env.configure)
    requires After(start, actions, env).Some? && ShapedState(After(start, actions, env).value)
    requires CanSaveAndRestore(After(start, actions, env).value, view, name, env)
    ensures var s := After(start, actions, env).value;
      && ShapedState(Saving(s, view, name, env))
      && var d, r := s.layout, Restored(Saving(s, view, name, env), view, env).layout;
        && (Kept(d, r) <==> d.instances.keys != [])
        && (Kept(d, r) && r.columns == d.columns <==> d.instances.keys != [] && Presentable(d))
  {
    hide NormalizeDocument, Core, Saving, Restored, ShapedState, Presentable, Kept, Saved, CanSaveAndRestore, After,
      InvariantErrors;
    RunKeepsInvariant(start, actions, env);
    SaveThenRestoreExactly(After(start, actions, env).value, view, name, env);
  }

  // --- The layout that is lost ------------------------------------------------------------------------

  /** One empty column: what is left when every panel has been closed. */
  function NoPanels(): Document {
    Document("", 1, [Column(Numbered(1), 100.0, [], Empty())], [], Empty(), None, None, 1, 2)
  }

  /** It satisfies the invariant and is presentable, and still does not come back. */
  lemma {:induction false} NoPanelsAreNotRestored(configure: Configurer, allocate: Allocator)
    requires KeepsKind(configure) && Preset(DefinitionOf(Classic), allocate).Some?
    ensures Inv(NoPanels()) && Presentable(NoPanels())
    ensures NormalizeDocument(Saved(NoPanels()), configure, allocate) == Preset(DefinitionOf(Classic), allocate)
    ensures !Kept(NoPanels(), Preset(DefinitionOf(Classic), allocate).value)
  {
    hide Preset, DefinitionOf, NormalizeDocument;
    var d := NoPanels();
    assert d.columns[..0] == [];
    EmptyBecomesClassic(d, configure, allocate);
    ClassicHasPanels(allocate);
  }
}
