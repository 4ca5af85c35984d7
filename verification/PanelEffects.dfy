/** What each reducer does to the layout, part by part. */
module PanelEffects {
  import opened Outcomes
  import opened Records
  import opened PanelTypes
  import opened PanelOperations
  import opened PanelInvariant
  import opened PanelReducers

  // --- Lists ---------------------------------------------------------------------------------------

  /** The other elements in their order, and nothing else. */
  lemma {:induction false} WithoutMeans(before: seq<PanelId>, x: PanelId, after: seq<PanelId>)
    ensures x !in before && x !in after ==> Without(before + [x] + after, x) == before + after
    ensures x !in before ==> Without(before, x) == before
  {
    if x !in before {
      WithoutAbsent(before, x);
    }
    if x !in before && x !in after {
      WithoutFirst(before, x, after);
    }
  }

  lemma {:induction false} WithoutFirst(before: seq<PanelId>, x: PanelId, after: seq<PanelId>)
    requires x !in before && x !in after
    ensures Without(before + [x] + after, x) == before + after
  {
    var whole := before + [x] + after;
    if after == [] {
      assert whole[..|whole| - 1] == before;
      WithoutAbsent(before, x);
      assert before + after == before;
    } else {
      var front, last := after[..|after| - 1], after[|after| - 1];
      assert whole[..|whole| - 1] == before + [x] + front;
      WithoutFirst(before, x, front);
      assert last in after;
      assert before + after == before + front + [last];
    }
  }

  /** The position asked for, cut to the list; the end if none is asked for. */
  predicate IsPosition(index: Option<int>, length: nat, k: nat) {
    && k <= length
    && (index.None? ==> k == length)
    && (index.Some? && 0 <= index.value <= length ==> k == index.value)
    && (index.Some? && index.value < 0 ==> k == 0)
    && (index.Some? && index.value > length ==> k == length)
  }

  // --- Sizes -----------------------------------------------------------------------------------------

  /** A size that is not positive, or missing, counts as one. */
  function GivenSize(sizes: Record<PanelId, real>, id: PanelId): real {
    if id in sizes.values && sizes.values[id] > 0.0 then sizes.values[id] else 1.0
  }

  /** The column's sizes are to each other as the given ones. */
  ghost predicate HasShares(column: Column, sizes: Record<PanelId, real>) {
    forall a, b :: a in column.panelIds && b in column.panelIds ==>
      && a in column.sizes.values && b in column.sizes.values
      && SameRatio(column.sizes.values[a], column.sizes.values[b], GivenSize(sizes, a), GivenSize(sizes, b))
  }

  lemma {:induction false} SizesFollow(column: Column, a: PanelId, b: PanelId)
    requires Distinct(column.panelIds) && a in column.panelIds && b in column.panelIds
    ensures var sizes := NormalizedColumn(column).sizes.values;
      && a in sizes && b in sizes
      && SameRatio(sizes[a], sizes[b], GivenSize(column.sizes, a), GivenSize(column.sizes, b))
  {
    hide Share, TotalOf, SameRatio;
    var total := TotalWeight(column.panelIds, column.sizes);
    SharesOfDistinct(column.panelIds, column.sizes, total);
    var sizes := NormalizedColumn(column).sizes;
    assert a in sizes.keys && b in sizes.keys;
    SameProportion(GivenSize(column.sizes, a), GivenSize(column.sizes, b), total, sizes.values[a], sizes.values[b]);
  }

  /** Renormalising changes nothing but the sizes, which keep their proportions. */
  lemma {:induction false} NormalizedHasShares(column: Column)
    ensures var t := NormalizedColumn(column);
      t == column.(sizes := t.sizes) && (Distinct(column.panelIds) ==> HasShares(t, column.sizes))
  {
    hide SameRatio, Distinct, GivenSize;
    var t := NormalizedColumn(column);
    if Distinct(column.panelIds) {
      forall a, b | a in t.panelIds && b in t.panelIds
        ensures a in t.sizes.values && b in t.sizes.values
        ensures SameRatio(t.sizes.values[a], t.sizes.values[b], GivenSize(column.sizes, a), GivenSize(column.sizes, b))
      {
        SizesFollow(column, a, b);
      }
    }
  }

  // --- Placement ---------------------------------------------------------------------------------------

  /** Every column has lost the panel, and nothing else. */
  ghost predicate HaveLost(before: seq<Column>, after: seq<Column>, id: PanelId) {
    |after| == |before| && forall i :: 0 <= i < |before| ==> HasLost(before[i], after[i], id)
  }

  /** The column keeps its identifier, its width, and the other panels in their
      order and proportions; it is not touched at all if the panel was not in it. */
  ghost predicate HasLost(before: Column, after: Column, id: PanelId) {
    && after == before.(panelIds := Without(before.panelIds, id), sizes := after.sizes)
    && (Distinct(before.panelIds) ==> HasShares(after, before.sizes))
    && (Sized(before) && id !in before.panelIds ==> after == before)
  }

  lemma {:induction false} AbsentKeepsColumn(column: Column, id: PanelId)
    requires Sized(column) && id !in column.panelIds
    ensures RemoveFromColumn(column, id) == column
  {
    hide NormalizedColumn, Without, Sized;
    WithoutAbsent(column.panelIds, id);
    NothingToDelete(column, id);
    SizedIsNormalized(column);
  }

  lemma {:induction false} NothingToDelete(column: Column, id: PanelId)
    requires Sized(column) && id !in column.panelIds
    ensures column.sizes.Delete(id) == column.sizes
  {
    hide SizeTotal, Without;
    WithoutAbsent(column.sizes.keys, id);
  }

  lemma {:induction false} RemovingLoses(columns: seq<Column>, id: PanelId)
    ensures HaveLost(columns, RemoveFromColumns(columns, id), id)
  {
    hide HasLost;
    forall i | 0 <= i < |columns|
      ensures HasLost(columns[i], RemoveFromColumns(columns, id)[i], id)
    {
      RemovedColumn(columns, id, i);
      ColumnLoses(columns[i], id);
    }
  }

  lemma {:induction false} ColumnLoses(column: Column, id: PanelId)
    ensures HasLost(column, RemoveFromColumn(column, id), id)
  {
    hide NormalizedColumn, Without, Sized, Distinct, SameRatio;
    var rest := column.(panelIds := Without(column.panelIds, id), sizes := column.sizes.Delete(id));
    NormalizedHasShares(rest);
    WithoutElements(column.panelIds, id);
    if Distinct(column.panelIds) {
      WithoutDistinct(column.panelIds, id);
      assert forall a :: a in rest.panelIds ==> GivenSize(rest.sizes, a) == GivenSize(column.sizes, a);
    }
    if Sized(column) && id !in column.panelIds {
      AbsentKeepsColumn(column, id);
    }
  }

  /** One column has the panel at the position asked for, with a share as if it
      had a size of one unless it brings one; the others are untouched. */
  ghost predicate HasGained(before: seq<Column>, after: seq<Column>, c: nat, index: Option<int>, id: PanelId) {
    && |after| == |before| && c < |before|
    && (forall i :: 0 <= i < |before| && i != c ==> after[i] == before[i])
    && after[c] == before[c].(panelIds := after[c].panelIds, sizes := after[c].sizes)
    && (Distinct(after[c].panelIds) ==> HasShares(after[c], before[c].sizes))
    && exists k: nat :: IsPosition(index, |before[c].panelIds|, k)
         && after[c].panelIds == before[c].panelIds[..k] + [id] + before[c].panelIds[k..]
  }

  lemma {:induction false} PlacingGains(d: Document, c: nat, index: Option<int>, id: PanelId)
    requires c < |d.columns|
    ensures var t := PlaceInColumn(d, c, index, id);
      t == d.(columns := t.columns) && HasGained(d.columns, t.columns, c, index, id)
  {
    hide NormalizedColumn, HasShares, Distinct;
    var before := d.columns[c];
    var k := Clamp(index.GetOr(|before.panelIds|), |before.panelIds|);
    NormalizedHasShares(before.(panelIds := Inserted(before.panelIds, k, id)));
    var after := PlaceInColumn(d, c, index, id).columns[c];
    assert IsPosition(index, |before.panelIds|, k)
        && after.panelIds == before.panelIds[..k] + [id] + before.panelIds[k..];
  }

  // --- Instances ------------------------------------------------------------------------------------------

  /** Only this panel's entry differs. */
  predicate OnlyEntry(d: Document, t: Document, id: PanelId)
    requires d.Has(id) && t.Has(id)
  {
    && t.instances.keys == d.instances.keys && t.instances.values.Keys == d.instances.values.Keys
    && forall other :: other in d.instances.values && other != id ==> t.instances.values[other] == d.instances.values[other]
  }

  lemma {:induction false} SettingOneEntry(d: Document, id: PanelId, panel: Instance)
    requires d.Has(id)
    ensures var t := SetInstance(d, id, panel);
      t == d.(instances := t.instances) && t.Has(id) && t.At(id) == panel && OnlyEntry(d, t, id)
  {
  }

  // --- The terminal that takes over --------------------------------------------------------------------------

  predicate IsVisibleTerminal(d: Document, id: PanelId) {
    d.Has(id) && d.At(id).kind == Terminal && !d.At(id).minimized
  }

  /** It comes first: no visible terminal stands before it in the list. */
  predicate IsFirstVisible(ids: seq<PanelId>, d: Document, id: PanelId) {
    exists k :: 0 <= k < |ids| && ids[k] == id && IsVisibleTerminal(d, id)
      && forall i :: 0 <= i < k ==> !IsVisibleTerminal(d, ids[i])
  }

  lemma {:induction false} FirstVisibleExactly(ids: seq<PanelId>, d: Document)
    ensures var r := FirstVisibleTerminal(ids, d.instances.values);
      && (r.Some? ==> IsFirstVisible(ids, d, r.value))
      && (r.None? <==> !ShowsTerminal(ids, d))
  {
    if ids != [] {
      var tail := ids[1..];
      FirstVisibleExactly(tail, d);
      assert forall i :: 0 <= i < |tail| ==> tail[i] == ids[i + 1];
      var r := FirstVisibleTerminal(ids, d.instances.values);
      if IsVisibleTerminal(d, ids[0]) {
        assert ids[0] == r.value;
      } else if r.Some? {
        var k :| 0 <= k < |tail| && tail[k] == r.value && forall i :: 0 <= i < k ==> !IsVisibleTerminal(d, tail[i]);
        assert ids[k + 1] == r.value;
        forall i | 0 <= i < k + 1
          ensures !IsVisibleTerminal(d, ids[i])
        {
          if i > 0 {
            assert tail[i - 1] == ids[i];
          }
        }
      }
    }
  }

  lemma {:induction false} ReversedAt(s: seq<PanelId>, k: nat)
    requires k < |s|
    ensures |Reversed(s)| == |s| && Reversed(s)[k] == s[|s| - 1 - k]
  {
    ReversedLength(s);
    if |s| > 1 {
      ReversedLength(s[1..]);
      if k < |s| - 1 {
        ReversedAt(s[1..], k);
      }
    }
  }

  lemma {:induction false} ReversedLength(s: seq<PanelId>)
    ensures |Reversed(s)| == |s|
  {
    if s != [] {
      ReversedLength(s[1..]);
    }
  }

  /** The focused panel takes over if it is a visible terminal; else the
      topmost floating one that is, else the first docked one, else the first terminal at all. */
  ghost predicate TakesOver(d: Document, r: Option<PanelId>) {
    if d.focused.Some? && IsVisibleTerminal(d, d.focused.value) then r == d.focused
    else if ShowsTerminal(d.floating, d) then r.Some? && IsTopmostVisible(d.floating, d, r.value)
    else if ShowsTerminal(ColumnPanels(d.columns), d) then r.Some? && IsFirstVisible(ColumnPanels(d.columns), d, r.value)
    else IsFirstOf(d, Terminal, r)
  }

  predicate ShowsTerminal(ids: seq<PanelId>, d: Document) {
    exists i :: 0 <= i < |ids| && IsVisibleTerminal(d, ids[i])
  }

  /** No visible terminal stands behind it in the list. */
  predicate IsTopmostVisible(ids: seq<PanelId>, d: Document, id: PanelId) {
    exists k :: 0 <= k < |ids| && ids[k] == id && IsVisibleTerminal(d, id)
      && forall i :: k < i < |ids| ==> !IsVisibleTerminal(d, ids[i])
  }

  /** The first panel of a kind in the table, if there is one. */
  ghost predicate IsFirstOf(d: Document, kind: Kind, r: Option<PanelId>) {
    && (r.None? ==> forall i :: 0 <= i < |d.instances.keys| ==> !IsOfKind(d, d.instances.keys[i], kind))
    && (r.Some? ==> IsFirstIn(d.instances.keys, d, kind, r.value))
  }

  ghost predicate IsFirstIn(ids: seq<PanelId>, d: Document, kind: Kind, id: PanelId) {
    exists k :: 0 <= k < |ids| && ids[k] == id && IsOfKind(d, id, kind) && forall i :: 0 <= i < k ==> !IsOfKind(d, ids[i], kind)
  }

  predicate IsOfKind(d: Document, id: PanelId, kind: Kind) {
    d.Has(id) && d.At(id).kind == kind
  }

  lemma {:induction false} FirstInList(ids: seq<PanelId>, d: Document, kind: Kind)
    ensures var r := FirstOfKind(ids, d.instances.values, kind);
      && (r.None? ==> forall i :: 0 <= i < |ids| ==> !IsOfKind(d, ids[i], kind))
      && (r.Some? ==> IsFirstIn(ids, d, kind, r.value))
  {
    if ids != [] {
      var tail := ids[1..];
      FirstInList(tail, d, kind);
      assert forall i :: 0 <= i < |tail| ==> tail[i] == ids[i + 1];
      var r := FirstOfKind(ids, d.instances.values, kind);
      if IsOfKind(d, ids[0], kind) {
        assert ids[0] == r.value;
      } else if r.Some? {
        var k :| 0 <= k < |tail| && tail[k] == r.value && forall i :: 0 <= i < k ==> !IsOfKind(d, tail[i], kind);
        assert ids[k + 1] == r.value;
        forall i | 0 <= i < k + 1
          ensures !IsOfKind(d, ids[i], kind)
        {
          if i > 0 {
            assert tail[i - 1] == ids[i];
          }
        }
      }
    }
  }

  lemma {:induction false} FirstInTable(d: Document, kind: Kind)
    ensures IsFirstOf(d, kind, FirstOfKind(d.instances.keys, d.instances.values, kind))
  {
    FirstInList(d.instances.keys, d, kind);
  }

  lemma {:induction false} FirstInBoth(a: seq<PanelId>, b: seq<PanelId>, d: Document)
    ensures FirstVisibleTerminal(a + b, d.instances.values)
            == if FirstVisibleTerminal(a, d.instances.values).Some? then FirstVisibleTerminal(a, d.instances.values)
               else FirstVisibleTerminal(b, d.instances.values)
  {
    if a == [] {
      assert a + b == b;
    } else {
      assert (a + b)[1..] == a[1..] + b;
      FirstInBoth(a[1..], b, d);
    }
  }

  lemma {:induction false} TopmostFloating(d: Document)
    ensures var r := FirstVisibleTerminal(Reversed(d.floating), d.instances.values);
      && (r.None? <==> !ShowsTerminal(d.floating, d))
      && (r.Some? ==> IsTopmostVisible(d.floating, d, r.value))
  {
    var s, reversed := d.floating, Reversed(d.floating);
    ReversedLength(s);
    FirstVisibleExactly(reversed, d);
    forall k | 0 <= k < |s|
      ensures reversed[k] == s[|s| - 1 - k]
    {
      ReversedAt(s, k);
    }
    var r := FirstVisibleTerminal(reversed, d.instances.values);
    if r.None? {
      forall i | 0 <= i < |s|
        ensures !IsVisibleTerminal(d, s[i])
      {
        assert reversed[|s| - 1 - i] == s[i];
      }
    } else {
      var k :| 0 <= k < |reversed| && reversed[k] == r.value && IsVisibleTerminal(d, r.value)
        && forall i :: 0 <= i < k ==> !IsVisibleTerminal(d, reversed[i]);
      var i := |s| - 1 - k;
      assert s[i] == r.value;
      forall j | i < j < |s|
        ensures !IsVisibleTerminal(d, s[j])
      {
        assert reversed[|s| - 1 - j] == s[j];
      }
    }
  }

  lemma {:induction false} ReplacementTakesOver(d: Document)
    ensures TakesOver(d, VisibleTerminalReplacement(d))
  {
    hide Reversed, ColumnPanels, FirstVisibleTerminal, FirstOfKind;
    var docked := ColumnPanels(d.columns);
    FirstInBoth(Listed(d.focused) + Reversed(d.floating), docked, d);
    FirstInBoth(Listed(d.focused), Reversed(d.floating), d);
    FocusedIsFirst(d);
    TopmostFloating(d);
    FirstVisibleExactly(docked, d);
    FirstInTable(d, Terminal);
    hide IsFirstOf, IsFirstVisible, IsTopmostVisible, IsVisibleTerminal, ShowsTerminal;
  }

  lemma {:induction false} FocusedIsFirst(d: Document)
    ensures FirstVisibleTerminal(Listed(d.focused), d.instances.values)
            == if d.focused.Some? && IsVisibleTerminal(d, d.focused.value) then d.focused else None
  {
    if d.focused.Some? {
      assert Listed(d.focused)[1..] == [];
    }
  }

  // --- Closing, minimising, focusing ------------------------------------------------------------------------

  /** The owner is as before, unless it was this panel: then another takes over. */
  ghost predicate IsHandedOn(d: Document, t: Document, id: PanelId) {
    if d.owner == Some(id) then TakesOver(t, t.owner) else t.owner == d.owner
  }

  lemma {:induction false} OwnerIsNoPart(d: Document, owner: Option<PanelId>, r: Option<PanelId>)
    ensures TakesOver(d.(owner := owner), r) <==> TakesOver(d, r)
  {
    var t := d.(owner := owner);
    assert forall id :: IsVisibleTerminal(t, id) <==> IsVisibleTerminal(d, id);
    assert forall id, kind :: IsOfKind(t, id, kind) <==> IsOfKind(d, id, kind);
  }

  lemma {:induction false} ReplacingHandsOn(d: Document, id: PanelId)
    ensures var t := ReplaceOwner(d, id);
      t == d.(owner := t.owner) && IsHandedOn(d, t, id)
  {
    hide TakesOver, VisibleTerminalReplacement;
    ReplacementTakesOver(d);
    if d.owner == Some(id) {
      OwnerIsNoPart(d, VisibleTerminalReplacement(d), VisibleTerminalReplacement(d));
    }
  }

  /** Closing takes the panel out of the table, its column and the floating
      list, drops its focus and hands its ownership on. Nothing else changes. */
  lemma {:induction false} CloseEffect(d: Document, id: PanelId)
    requires d.Has(id)
    ensures var change := ClosePanel(d, id);
      var t := change.document;
      && change.dirty && !t.Has(id)
      && t == d.(columns := t.columns, floating := Without(d.floating, id), instances := t.instances,
                 focused := if d.focused == Some(id) then None else d.focused, owner := t.owner)
      && t.instances == Record(Without(d.instances.keys, id), d.instances.values - {id})
      && HaveLost(d.columns, t.columns, id)
      && IsHandedOn(d, t, id)
  {
    hide RemoveFromColumns, Without, TakesOver, VisibleTerminalReplacement, HaveLost;
    RemovingLoses(d.columns, id);
    var removed := RemovePlacement(d, id);
    var closed := removed.(
      instances := removed.instances.Delete(id), focused := if removed.focused == Some(id) then None else removed.focused);
    ReplacingHandsOn(closed, id);
  }

  /** Minimising flips one flag, and hands on the ownership of a panel that is now hidden. */
  lemma {:induction false} ToggleEffect(d: Document, id: PanelId)
    requires d.Has(id)
    ensures var change := ToggleMinimized(d, id);
      var t := change.document;
      && change.dirty && t.Has(id) && OnlyEntry(d, t, id)
      && t == d.(instances := t.instances, owner := t.owner)
      && t.At(id) == d.At(id).(minimized := !d.At(id).minimized)
      && (if d.At(id).minimized then t.owner == d.owner else IsHandedOn(d, t, id))
  {
    hide SetInstance, TakesOver, VisibleTerminalReplacement;
    var panel := d.At(id).(minimized := !d.At(id).minimized);
    SettingOneEntry(d, id, panel);
    ReplacingHandsOn(SetInstance(d, id, panel), id);
  }

  /** Focusing shows the panel, focuses it, and brings it to the front if it
      floats; the layout does not count as edited. */
  lemma {:induction false} FocusEffect(d: Document, id: PanelId)
    requires d.Has(id)
    ensures var change := FocusPanel(d, id);
      var t := change.document;
      && !change.dirty && t.Has(id) && OnlyEntry(d, t, id)
      && t == d.(instances := t.instances, focused := Some(id),
                 floating := if id in d.floating then Without(d.floating, id) + [id] else d.floating)
      && t.At(id) == d.At(id).(minimized := false)
  {
    hide SetInstance, Without;
    SettingOneEntry(d, id, d.At(id).(minimized := false));
  }

  /** Choosing an owner shows and focuses it; anything but a terminal is refused. */
  lemma {:induction false} OwnerChoiceEffect(d: Document, id: PanelId)
    ensures var change := SetTerminalOwner(d, id);
      var t := change.document;
      if IsOfKind(d, id, Terminal) then
        && change.dirty && t.Has(id) && OnlyEntry(d, t, id)
        && t == d.(instances := t.instances, owner := Some(id), focused := Some(id))
        && t.At(id) == d.At(id).(minimized := false)
      else change == Change(d, false)
  {
    hide SetInstance;
    if d.Has(id) {
      SettingOneEntry(d, id, d.At(id).(minimized := false));
    }
  }

  /** Without the panel, none of these does anything. */
  lemma {:induction false} UnknownPanelIsLeft(d: Document, id: PanelId)
    requires !d.Has(id)
    ensures ClosePanel(d, id) == ToggleMinimized(d, id) == FocusPanel(d, id) == Change(d, false)
  {
  }

  // --- Creating ----------------------------------------------------------------------------------------------

  function ExpandedIn(ids: seq<PanelId>, d: Document): set<PanelId> {
    set id | id in ids && !(d.Has(id) && d.At(id).minimized)
  }

  /** Panels that are not minimised, counted. */
  lemma {:induction false} ExpandedCounts(ids: seq<PanelId>, d: Document)
    requires Distinct(ids)
    ensures Expanded(ids, d.instances.values) == |ExpandedIn(ids, d)|
  {
    if ids != [] {
      var front, last := ids[..|ids| - 1], ids[|ids| - 1];
      ExpandedCounts(front, d);
      DistinctFront(ids);
      assert ids == front + [last];
      if d.Has(last) && d.At(last).minimized {
        assert ExpandedIn(ids, d) == ExpandedIn(front, d);
      } else {
        assert ExpandedIn(ids, d) == ExpandedIn(front, d) + {last};
      }
    } else {
      assert ExpandedIn(ids, d) == {};
    }
  }

  /** No column has fewer expanded panels, and none further right has as few. */
  predicate IsLeastExpanded(columns: seq<Column>, instances: map<PanelId, Instance>, c: nat) {
    && c < |columns|
    && (forall i :: 0 <= i < |columns| ==> Expanded(columns[c].panelIds, instances) <= Expanded(columns[i].panelIds, instances))
    && (forall i :: c < i < |columns| ==> Expanded(columns[c].panelIds, instances) < Expanded(columns[i].panelIds, instances))
  }

  lemma {:induction false} LeastExpandedExactly(columns: seq<Column>, instances: map<PanelId, Instance>)
    requires columns != []
    ensures IsLeastExpanded(columns, instances, LeastExpanded(columns, instances))
  {
    hide Expanded;
    if |columns| > 1 {
      LeastExpandedExactly(columns[..|columns| - 1], instances);
    }
  }

  /** The column named by the target if it exists, and else the one with the fewest expanded panels. */
  ghost predicate IsChosen(d: Document, target: Target, c: nat) {
    && c < |d.columns|
    && if target.column.Some? && exists i :: 0 <= i < |d.columns| && d.columns[i].id == target.column.value then
         d.columns[c].id == target.column.value && forall i :: 0 <= i < c ==> d.columns[i].id != target.column.value
       else IsLeastExpanded(d.columns, d.instances.values, c)
  }

  lemma {:induction false} ChosenIsChosen(d: Document, target: Target)
    requires d.columns != []
    ensures IsChosen(d, target, ChosenColumn(d, target))
  {
    LeastExpandedExactly(d.columns, d.instances.values);
    hide IsLeastExpanded, LeastExpanded;
  }

  /** A rectangle is moved and enlarged as far as it has to be. */
  lemma {:induction false} ClampMeans(rect: Rect)
    ensures var t := ClampFloatingRect(rect);
      && t.x >= 0.0 && (t.x == rect.x || (rect.x < 0.0 && t.x == 0.0))
      && t.y >= 0.0 && (t.y == rect.y || (rect.y < 0.0 && t.y == 0.0))
      && t.width >= 280.0 && (t.width == rect.width || (rect.width < 280.0 && t.width == 280.0))
      && t.height >= 180.0 && (t.height == rect.height || (rect.height < 180.0 && t.height == 180.0))
  {
  }

  /** The settings of a new panel: those of its kind, with free addresses and
      the panel's own device if it is a hardware panel. */
  predicate IsNewConfig(config: Config, kind: Kind, id: PanelId, devices: seq<Config>, allocate: Allocator) {
    match kind
    case HardwareDisplay => allocate(devices, kind).Some? && config == Display(DeviceOf(id), allocate(devices, kind).value.0)
    case HardwareDigitalIo =>
      && allocate(devices, kind).Some?
      && var (led, switch, button) := allocate(devices, kind).value;
        config == DigitalIo(DeviceOf(id), led, switch, button, ["", "", "", "", "", "", "", ""])
    case _ => config == Plain(kind, "")
  }

  lemma {:induction false} ConfigurationMeans(kind: Kind, id: PanelId, devices: seq<Config>, allocate: Allocator)
    ensures var config := CreateConfiguration(kind, id, devices, allocate);
      && (config.Some? ==> IsNewConfig(config.value, kind, id, devices, allocate))
      && (config.None? <==> (kind == HardwareDisplay || kind == HardwareDigitalIo) && allocate(devices, kind).None?)
  {
  }

  /** There is room for one more panel, and for its device if it is a hardware panel. */
  predicate HasRoomFor(d: Document, kind: Kind, allocate: Allocator)
    requires d.instances.Valid()
  {
    && |d.instances.keys| < 32
    && (kind == HardwareDisplay || kind == HardwareDigitalIo ==>
          allocate(Devices(InstanceList(d.instances)), kind).Some?)
  }

  /** The panel is in one new place, where the target has it. */
  ghost predicate IsPlacedAt(d: Document, t: Document, id: PanelId, target: Target) {
    if target.rect.Some? then t.floating == d.floating + [id] && t.columns == d.columns
    else
      && t.floating == d.floating
      && exists c: nat :: IsChosen(t.(columns := d.columns), target, c) && HasGained(d.columns, t.columns, c, target.index, id)
  }

  /** Creating adds one panel of the kind: with the next identifier, its
      default title and settings, where the target has it, focused, and the owner if it is
      the first terminal. Without room nothing happens. */
  lemma {:induction false} AddEffect(d: Document, kind: Kind, target: Target, allocate: Allocator)
    requires d.instances.Valid() && d.columns != []
    ensures var change := AddInstance(d, kind, target, allocate);
      var t, id := change.document, Generated(kind, d.nextInstance);
      if HasRoomFor(d, kind, allocate) then
        && change.dirty && t.Has(id)
        && t == d.(columns := t.columns, floating := t.floating, instances := t.instances, focused := Some(id),
                   owner := if kind == Terminal && d.owner.None? then Some(id) else d.owner,
                   nextInstance := d.nextInstance + 1)
        && t.instances == Record(if d.Has(id) then d.instances.keys else d.instances.keys + [id],
                                 d.instances.values[id := t.At(id)])
        && t.At(id) == Instance(id, kind, DefaultTitle(kind), false, ClampedTarget(target), t.At(id).config)
        && IsNewConfig(t.At(id).config, kind, id, Devices(InstanceList(d.instances)), allocate)
        && IsPlacedAt(d, t, id, target)
      else change == Change(d, false)
  {
    hide PlaceInColumn, IsChosen, HasGained, IsNewConfig, Devices, ChosenColumn, ClampedTarget, DefaultTitle;
    var id := NextId(d, kind);
    ConfigurationMeans(kind, id, Devices(InstanceList(d.instances)), allocate);
    if CanCreate(d, kind, allocate) {
      var registered := Register(d, kind, NewConfiguration(d, kind, allocate).value, ClampedTarget(target));
      var t := AddInstance(d, kind, target, allocate).document;
      if target.rect.None? {
        ChosenIsChosen(registered, target);
        var c := ChosenColumn(registered, target);
        PlacingGains(registered, c, target.index, id);
        ChosenAlike(registered, t.(columns := d.columns), target, c);
      }
    }
  }

  lemma {:induction false} ChosenAlike(d: Document, e: Document, target: Target, c: nat)
    requires d.columns == e.columns && d.instances == e.instances && IsChosen(d, target, c)
    ensures IsChosen(e, target, c)
  {
  }

  /** A target's rectangle is clamped; without one the panel does not float. */
  lemma {:induction false} TargetMeans(target: Target)
    ensures ClampedTarget(target) == if target.rect.Some? then Some(ClampFloatingRect(target.rect.value)) else None
  {
  }

  /** Duplicating creates a panel of the same kind, and gives it the title and,
      unless they bind a device, the settings of the original. */
  lemma {:induction false} DuplicateEffect(d: Document, id: PanelId, target: Target, allocate: Allocator)
    requires d.instances.Valid() && d.columns != []
    ensures var change := DuplicatePanel(d, id, target, allocate);
      if d.Has(id) && HasRoomFor(d, d.At(id).kind, allocate) then
        var source, copyId := d.At(id), Generated(d.At(id).kind, d.nextInstance);
        var added, t := AddInstance(d, source.kind, target, allocate).document, change.document;
        && change.dirty && added.Has(copyId) && t.Has(copyId) && OnlyEntry(added, t, copyId)
        && t == added.(instances := t.instances)
        && t.At(copyId) == added.At(copyId).(
             title := source.title, config := if source.config.Plain? then source.config else added.At(copyId).config)
      else change == Change(d, false)
  {
    hide AddInstance, IsPlacedAt, IsNewConfig, SetInstance, Devices;
    if d.Has(id) {
      var source, copyId := d.At(id), NextId(d, d.At(id).kind);
      AddEffect(d, source.kind, target, allocate);
      var added := AddInstance(d, source.kind, target, allocate);
      if HasRoomFor(d, source.kind, allocate) {
        SettingOneEntry(added.document, copyId, CopyOnto(added.document.At(copyId), source));
      }
    }
  }

  /** Revealing shows and focuses the first panel of the kind, or creates one. */
  lemma {:induction false} RevealEffect(d: Document, kind: Kind, allocate: Allocator)
    requires d.instances.Valid() && d.columns != []
    ensures var change, first := RevealKind(d, kind, allocate), FirstOfKind(d.instances.keys, d.instances.values, kind);
      && IsFirstOf(d, kind, first)
      && if first.Some? then
           var t, id := change.document, first.value;
           && !change.dirty && t.Has(id) && OnlyEntry(d, t, id)
           && t == d.(instances := t.instances, focused := Some(id)) && t.At(id) == d.At(id).(minimized := false)
         else change == AddInstance(d, kind, Target(None, None, None), allocate)
  {
    hide AddInstance, SetInstance, FirstOfKind;
    FirstInTable(d, kind);
    var first := FirstOfKind(d.instances.keys, d.instances.values, kind);
    if first.Some? {
      SettingOneEntry(d, first.value, d.At(first.value).(minimized := false));
    }
  }
}
