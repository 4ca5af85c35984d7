/** What the reducers for settings, columns and floating panels do to the layout. */
module PanelColumnEffects {
  import opened Outcomes
  import opened Records
  import opened PanelTypes
  import opened PanelOperations
  import opened PanelInvariant
  import opened PanelReducers
  import opened PanelEffects

  // --- Columns ---------------------------------------------------------------------------------------

  lemma {:induction false} PanelsOfBoth(a: seq<Column>, b: seq<Column>)
    ensures ColumnPanels(a + b) == ColumnPanels(a) + ColumnPanels(b)
  {
    if b == [] {
      assert a + b == a;
    } else {
      assert (a + b)[..|a + b| - 1] == a + b[..|b| - 1];
      PanelsOfBoth(a, b[..|b| - 1]);
    }
  }

  /** The panels of a column come after those on its left and before those on its right. */
  lemma {:induction false} PanelsInOrder(left: seq<Column>, column: Column, right: seq<Column>)
    ensures ColumnPanels(left + [column] + right) == ColumnPanels(left) + column.panelIds + ColumnPanels(right)
    ensures ColumnPanels([]) == []
  {
    PanelsOfBoth(left + [column], right);
    assert (left + [column])[..|left|] == left;
  }

  lemma {:induction false} SamePanels(a: seq<Column>, b: seq<Column>)
    requires |a| == |b| && forall i :: 0 <= i < |a| ==> a[i].panelIds == b[i].panelIds
    ensures ColumnPanels(a) == ColumnPanels(b)
  {
    if a != [] {
      SamePanels(a[..|a| - 1], b[..|b| - 1]);
    }
  }

  /** New columns are empty and have the next numbers. */
  ghost predicate HaveGrown(d: Document, columns: seq<Column>) {
    && |columns| >= |d.columns|
    && (forall i :: 0 <= i < |d.columns| ==> columns[i] == d.columns[i])
    && forall i :: |d.columns| <= i < |columns| ==>
         columns[i] == Column(Numbered(d.nextColumn + i - |d.columns|), 1.0, [], Empty())
  }

  lemma {:induction false} GrowingMeans(d: Document, count: nat)
    ensures var g := Grown(d, count);
      && g == d.(columns := g.columns, nextColumn := d.nextColumn + |g.columns| - |d.columns|)
      && |g.columns| == (if count > |d.columns| then count else |d.columns|)
      && HaveGrown(d, g.columns)
      && ColumnPanels(g.columns) == ColumnPanels(d.columns)
    decreases count - |d.columns|
  {
    hide HaveGrown;
    if |d.columns| < count {
      var column := Column(Numbered(d.nextColumn), 1.0, [], Empty());
      var next := d.(columns := d.columns + [column], nextColumn := d.nextColumn + 1);
      GrowingMeans(next, count);
      assert next.columns[..|next.columns| - 1] == d.columns;
      OneMore(d, next, column, Grown(d, count).columns);
    } else {
      NoneMore(d);
    }
  }

  lemma {:induction false} OneMore(d: Document, next: Document, column: Column, columns: seq<Column>)
    requires column == Column(Numbered(d.nextColumn), 1.0, [], Empty())
    requires next.columns == d.columns + [column] && next.nextColumn == d.nextColumn + 1 && HaveGrown(next, columns)
    ensures HaveGrown(d, columns)
  {
    assert forall i :: 0 <= i < |d.columns| ==> columns[i] == next.columns[i];
    assert columns[|d.columns|] == next.columns[|d.columns|];
  }

  lemma {:induction false} NoneMore(d: Document)
    ensures HaveGrown(d, d.columns)
  {
  }

  /** The column keeps its own panels and has the others below them. */
  ghost predicate HasTakenIn(before: Column, after: Column, moved: seq<PanelId>) {
    && after == before.(panelIds := before.panelIds + moved, sizes := after.sizes)
    && (Distinct(after.panelIds) ==> HasShares(after, before.sizes))
  }

  lemma {:induction false} ShrinkingMeans(d: Document, count: nat)
    requires count >= 1
    ensures var s := Shrunk(d, count);
      && s == d.(columns := s.columns)
      && ColumnPanels(s.columns) == ColumnPanels(d.columns)
      && if |d.columns| <= count then s == d
         else
           && |s.columns| == count && (forall i :: 0 <= i < count - 1 ==> s.columns[i] == d.columns[i])
           && HasTakenIn(d.columns[count - 1], s.columns[count - 1], ColumnPanels(d.columns[count..]))
  {
    hide NormalizedColumn, ColumnPanels, HasShares, Distinct;
    if |d.columns| > count {
      var last, moved := d.columns[count - 1], ColumnPanels(d.columns[count..]);
      var merged := last.(panelIds := last.panelIds + moved);
      NormalizedHasShares(merged);
      var before, after := d.columns[..count - 1], NormalizedColumn(merged);
      assert d.columns == before + [last] + d.columns[count..];
      PanelsInOrder(before, last, d.columns[count..]);
      assert Shrunk(d, count).columns == before + [after] + [];
      PanelsInOrder(before, after, []);
    }
  }

  /** The number asked for, from one to four. */
  predicate IsColumnCount(n: int, count: nat) {
    1 <= count <= 4 && (1 <= n <= 4 ==> count == n) && (n < 1 ==> count == 1) && (n > 4 ==> count == 4)
  }

  function Widened(column: Column, width: real): Column {
    column.(width := width)
  }

  /** Columns are appended empty, or merged into the last one that stays, which
      takes in the panels of those that go; all get equal widths, and all
      docked panels keep their order from left to right. */
  lemma {:induction false} ColumnCountEffect(d: Document, n: int)
    ensures SetColumnCount(d, n).dirty && IsColumnCount(n, |SetColumnCount(d, n).document.columns|)
    ensures var t := SetColumnCount(d, n).document;
      var count, width := |t.columns|, 100.0 / |t.columns| as real;
      && t == d.(columnCount := count, columns := t.columns,
                 nextColumn := d.nextColumn + if count > |d.columns| then count - |d.columns| else 0)
      && ColumnPanels(t.columns) == ColumnPanels(d.columns)
      && (forall i :: 0 <= i < count && i < |d.columns| && (i < count - 1 || count >= |d.columns|) ==>
            t.columns[i] == Widened(d.columns[i], width))
      && (forall i :: |d.columns| <= i < count ==>
            t.columns[i] == Column(Numbered(d.nextColumn + i - |d.columns|), width, [], Empty()))
      && (count < |d.columns| ==>
            HasTakenIn(Widened(d.columns[count - 1], width), t.columns[count - 1], ColumnPanels(d.columns[count..])))
  {
    hide Grown, Shrunk, ColumnPanels, HasShares, SameRatio, Distinct;
    var count := ColumnLimit(n);
    GrowingMeans(d, count);
    var grown := Grown(d, count);
    ShrinkingMeans(grown, count);
    var shrunk := Shrunk(grown, count).columns;
    var t := SetColumnCount(d, n).document;
    SamePanels(shrunk, t.columns);
    if count < |d.columns| {
      assert grown.columns == d.columns;
      WideningIsApart(d.columns[count - 1], shrunk[count - 1], ColumnPanels(d.columns[count..]), 100.0 / count as real);
    }
  }

  lemma {:induction false} WideningIsApart(before: Column, after: Column, moved: seq<PanelId>, width: real)
    requires HasTakenIn(before, after, moved)
    ensures HasTakenIn(Widened(before, width), Widened(after, width), moved)
  {
    hide SameRatio, GivenSize, Distinct;
  }

  /** Widths are taken over in their proportions; as many must be given as there
      are columns, and one of them positive. Nothing else changes. */
  lemma {:induction false} WidthsEffect(d: Document, widths: seq<real>)
    ensures var change := CommitColumnWidths(d, widths);
      var t := change.document;
      if |widths| == |d.columns| && exists i :: 0 <= i < |widths| && widths[i] > 0.0 then
        && change.dirty && t == d.(columns := t.columns) && SameButWidths(d.columns, t.columns)
        && (forall i, j :: 0 <= i < |widths| && 0 <= j < |widths| ==>
              SameRatio(t.columns[i].width, t.columns[j].width, widths[i], widths[j]))
        && forall i :: 0 <= i < |widths| ==> (widths[i] > 0.0 <==> t.columns[i].width > 0.0)
      else change == Change(d, false)
  {
    hide SameRatio, Share;
    PositiveTotalExactly(widths);
    var total := PositiveTotal(widths);
    if |widths| == |d.columns| && total > 0.0 {
      var scaled := ScaledWidths(d.columns, widths, total);
      forall i, j | 0 <= i < |widths| && 0 <= j < |widths|
        ensures SameRatio(scaled[i].width, scaled[j].width, widths[i], widths[j])
      {
        SameProportion(widths[i], widths[j], total, scaled[i].width, scaled[j].width);
      }
      forall i | 0 <= i < |widths|
        ensures widths[i] > 0.0 <==> scaled[i].width > 0.0
      {
        ShareSign(widths[i], total);
      }
    }
  }

  lemma {:induction false} ShareSign(x: real, total: real)
    requires total > 0.0
    ensures x > 0.0 <==> Share(x, total) > 0.0
  {
    assert x / total * total == x;
  }

  lemma {:induction false} PositiveTotalExactly(widths: seq<real>)
    ensures PositiveTotal(widths) > 0.0 <==> exists i :: 0 <= i < |widths| && widths[i] > 0.0
  {
    if widths != [] {
      var front := widths[..|widths| - 1];
      PositiveTotalExactly(front);
      if exists i :: 0 <= i < |front| && front[i] > 0.0 {
        var i :| 0 <= i < |front| && front[i] > 0.0;
        assert widths[i] > 0.0;
      }
      if exists i :: 0 <= i < |widths| && widths[i] > 0.0 {
        var i :| 0 <= i < |widths| && widths[i] > 0.0;
        assert i < |front| ==> front[i] > 0.0;
      }
    }
  }

  lemma {:induction false} PickedMeans(ids: seq<PanelId>, sizes: map<PanelId, real>)
    requires forall id :: id in ids ==> id in sizes
    ensures forall id :: id in ids ==> id in Picked(ids, sizes).values && Picked(ids, sizes).values[id] == sizes[id]
  {
    if ids != [] {
      PickedMeans(ids[..|ids| - 1], sizes);
      assert ids == ids[..|ids| - 1] + [ids[|ids| - 1]];
    }
  }

  /** A column of at least two panels takes over the sizes given for them, all
      of them positive, in their proportions. Nothing else changes. */
  lemma {:induction false} SizesEffect(d: Document, column: ColumnId, sizes: map<PanelId, real>, c: nat)
    requires c < |d.columns| && d.columns[c].id == column && forall i :: 0 <= i < c ==> d.columns[i].id != column
    ensures var change := CommitPanelSizes(d, column, sizes);
      var t, ids := change.document, d.columns[c].panelIds;
      if |ids| >= 2 && forall k :: 0 <= k < |ids| ==> ids[k] in sizes && sizes[ids[k]] > 0.0 then
        && change.dirty && |t.columns| == |d.columns|
        && t == d.(columns := d.columns[c := d.columns[c].(sizes := t.columns[c].sizes)])
        && (Distinct(ids) ==> forall a, b :: a in ids && b in ids ==>
              && a in t.columns[c].sizes.values && b in t.columns[c].sizes.values
              && SameRatio(t.columns[c].sizes.values[a], t.columns[c].sizes.values[b], sizes[a], sizes[b]))
      else change == Change(d, false)
  {
    hide NormalizedColumn, Picked, SameRatio, Distinct;
    FirstColumnIsFound(d.columns, column, c);
    var ids := d.columns[c].panelIds;
    if |ids| >= 2 && forall k :: 0 <= k < |ids| ==> ids[k] in sizes && sizes[ids[k]] > 0.0 {
      PickedMeans(ids, sizes);
      NormalizedHasShares(d.columns[c].(sizes := Picked(ids, sizes)));
      assert forall a :: a in ids ==> GivenSize(Picked(ids, sizes), a) == sizes[a];
    }
  }

  /** Sizes for a column that does not exist are refused. */
  lemma {:induction false} SizesOfNoColumn(d: Document, column: ColumnId, sizes: map<PanelId, real>)
    requires forall i :: 0 <= i < |d.columns| ==> d.columns[i].id != column
    ensures CommitPanelSizes(d, column, sizes) == Change(d, false)
  {
  }

  lemma {:induction false} FirstColumnIsFound(columns: seq<Column>, id: ColumnId, c: nat)
    requires c < |columns| && columns[c].id == id && forall i :: 0 <= i < c ==> columns[i].id != id
    ensures FindColumn(columns, id) == Some(c)
  {
    var r := FindColumn(columns, id);
    assert r.Some?;
  }

  // --- Moving and floating -------------------------------------------------------------------------

  /** Moving takes the panel out of where it was and puts it into the column at the
      position asked for, counted without it; it no longer has a rectangle, and is focused. */
  lemma {:induction false} MoveEffect(d: Document, id: PanelId, column: ColumnId, index: Option<int>)
    ensures var change := MovePanel(d, id, column, index);
      var t := change.document;
      if d.Has(id) && exists i :: 0 <= i < |d.columns| && d.columns[i].id == column then
        && change.dirty && t.Has(id) && OnlyEntry(d, t, id)
        && t == d.(columns := t.columns, floating := Without(d.floating, id), instances := t.instances, focused := Some(id))
        && t.At(id) == d.At(id).(rect := None)
        && IsMoved(d.columns, t.columns, id, column, index)
      else change == Change(d, false)
  {
    hide PlaceInColumn, RemoveFromColumns, Without, HaveLost, HasGained, SetInstance;
    if d.Has(id) && FindColumn(d.columns, column).Some? {
      var removed := RemovePlacement(d, id);
      RemovingLoses(d.columns, id);
      SettingOneEntry(removed, id, d.At(id).(rect := None));
      PlacingGains(WithRect(removed, id, None), FindColumn(d.columns, column).value, index, id);
    }
  }

  /** The panel leaves its column for the first one of the identifier. */
  ghost predicate IsMoved(before: seq<Column>, after: seq<Column>, id: PanelId, column: ColumnId, index: Option<int>) {
    exists between: seq<Column>, c: nat ::
      && HaveLost(before, between, id) && HasGained(between, after, c, index, id)
      && c < |before| && before[c].id == column && forall i :: 0 <= i < c ==> before[i].id != column
  }

  /** Floating takes the panel out of where it was and puts it on top of the floating ones,
      in the rectangle asked for or else the usual one; it is focused. */
  lemma {:induction false} FloatEffect(d: Document, id: PanelId, rect: Option<Rect>)
    ensures var change := FloatPanel(d, id, rect);
      var t := change.document;
      if d.Has(id) then
        && change.dirty && t.Has(id) && OnlyEntry(d, t, id)
        && t == d.(columns := t.columns, floating := Without(d.floating, id) + [id], instances := t.instances,
                   focused := Some(id))
        && t.At(id) == d.At(id).(
             rect := Some(if rect.Some? then ClampFloatingRect(rect.value) else Rect(32.0, 32.0, 520.0, 420.0)))
        && HaveLost(d.columns, t.columns, id)
      else change == Change(d, false)
  {
    hide RemoveFromColumns, Without, HaveLost, SetInstance;
    if d.Has(id) {
      var removed := RemovePlacement(d, id);
      RemovingLoses(d.columns, id);
      SettingOneEntry(removed, id, d.At(id).(rect := Some(ClampFloatingRect(rect.GetOr(DEFAULT_RECT)))));
    }
  }

  /** Dragging a floating panel puts it on top, in its new rectangle, and focuses
      it; the columns stay as they are. */
  lemma {:induction false} MoveFloatingEffect(d: Document, id: PanelId, rect: Rect)
    ensures var change := MoveFloatingPanel(d, id, rect);
      var t := change.document;
      if d.Has(id) && id in d.floating then
        && change.dirty && t.Has(id) && OnlyEntry(d, t, id)
        && t == d.(floating := Without(d.floating, id) + [id], instances := t.instances, focused := Some(id))
        && t.At(id) == d.At(id).(rect := Some(ClampFloatingRect(rect)))
      else change == Change(d, false)
  {
    hide Without, SetInstance;
    if d.Has(id) {
      SettingOneEntry(d, id, d.At(id).(rect := Some(ClampFloatingRect(rect))));
    }
  }

  /** A floating panel is put on top and focused; the layout does not count as edited. */
  lemma {:induction false} BringToFrontEffect(d: Document, id: PanelId)
    ensures BringToFront(d, id)
            == if id in d.floating then Change(d.(floating := Without(d.floating, id) + [id], focused := Some(id)), false)
               else Change(d, false)
  {
  }

  // --- Settings -------------------------------------------------------------------------------------------

  /** The panel is bound to the device. */
  predicate IsBoundTo(panel: Instance, kind: Kind, device: DeviceId) {
    match panel.config
    case Display(bound, _) => kind == HardwareDisplay && bound == device
    case DigitalIo(bound, _, _, _, _) => kind == HardwareDigitalIo && bound == device
    case Plain(_, _) => false
  }

  /** Settings for a device go to exactly the panels bound to the same device
      as the panel they are given for. Nothing else changes. */
  lemma {:induction false} HardwareEffect(d: Document, id: PanelId, config: Config)
    requires d.instances.Valid() && !config.Plain?
    ensures var change := CommitHardwareConfiguration(d, id, config);
      var t := change.document;
      if !d.Has(id) || d.At(id).kind != config.Kind() then change == Change(d, false)
      else if d.At(id).config.Plain? then change == Change(d, true)
      else
        && change.dirty && t == d.(instances := Record(d.instances.keys, t.instances.values))
        && t.instances.values.Keys == d.instances.values.Keys
        && forall other :: other in d.instances.values ==>
             t.instances.values[other]
             == if IsBoundTo(d.At(other), config.Kind(), d.At(id).config.device) then d.At(other).(config := config)
                else d.At(other)
  {
    hide Mirrored;
    if d.Has(id) && !d.At(id).config.Plain? {
      MirroredEntries(d.instances.keys, d.instances.values, d.At(id).config.device, config);
    }
  }

  predicate AreSpaces(s: string, from: nat, to: nat)
    requires to <= |s|
  {
    forall k :: from <= k < to ==> IsSpace(s[k])
  }

  /** The text from `i` up to `j`, with spaces on both sides. */
  predicate IsPartAt(s: string, r: string, i: nat, j: nat) {
    i <= j <= |s| && r == s[i..j] && AreSpaces(s, 0, i) && AreSpaces(s, j, |s|)
  }

  /** Spaces at both ends are dropped, and nothing else. */
  ghost predicate IsTrimmed(s: string, r: string) {
    && (exists i: nat, j: nat :: IsPartAt(s, r, i, j))
    && (r != "" ==> !IsSpace(r[0]) && !IsSpace(r[|r| - 1]))
  }

  lemma {:induction false} TrimMeans(s: string)
    ensures IsTrimmed(s, Trim(s))
    decreases |s|
  {
    hide IsPartAt, IsSpace;
    if s == "" || (!IsSpace(s[0]) && !IsSpace(s[|s| - 1])) {
      WholeIsPart(s);
    } else if IsSpace(s[0]) {
      TrimMeans(s[1..]);
      var i: nat, j: nat :| IsPartAt(s[1..], Trim(s[1..]), i, j);
      SpaceInFront(s, Trim(s[1..]), i, j);
    } else {
      TrimMeans(s[..|s| - 1]);
      var i: nat, j: nat :| IsPartAt(s[..|s| - 1], Trim(s[..|s| - 1]), i, j);
      SpaceBehind(s, Trim(s[..|s| - 1]), i, j);
    }
  }

  lemma {:induction false} WholeIsPart(s: string)
    ensures IsPartAt(s, s, 0, |s|)
  {
  }

  lemma {:induction false} SpaceInFront(s: string, r: string, i: nat, j: nat)
    requires s != "" && IsSpace(s[0]) && IsPartAt(s[1..], r, i, j)
    ensures IsPartAt(s, r, i + 1, j + 1)
  {
    hide AreSpaces, IsSpace;
    assert s[1..][i..j] == s[i + 1..j + 1];
    SpacesInSuffix(s, 0, i);
    SpacesInSuffix(s, j, |s| - 1);
    FirstSpace(s, i + 1);
  }

  lemma {:induction false} SpacesInSuffix(s: string, from: nat, to: nat)
    requires s != "" && to < |s| && AreSpaces(s[1..], from, to)
    ensures AreSpaces(s, from + 1, to + 1)
  {
    hide IsSpace;
    assert forall k :: 0 < k < |s| ==> s[k] == s[1..][k - 1];
  }

  lemma {:induction false} FirstSpace(s: string, to: nat)
    requires 1 <= to <= |s| && IsSpace(s[0]) && AreSpaces(s, 1, to)
    ensures AreSpaces(s, 0, to)
  {
    hide IsSpace;
  }

  lemma {:induction false} SpaceBehind(s: string, r: string, i: nat, j: nat)
    requires s != "" && IsSpace(s[|s| - 1]) && IsPartAt(s[..|s| - 1], r, i, j)
    ensures IsPartAt(s, r, i, j)
  {
    hide AreSpaces, IsSpace;
    assert s[..|s| - 1][i..j] == s[i..j];
    SpacesInPrefix(s, 0, i);
    SpacesInPrefix(s, j, |s| - 1);
    OneMoreSpace(s, j);
  }

  lemma {:induction false} SpacesInPrefix(s: string, from: nat, to: nat)
    requires s != "" && to < |s| && AreSpaces(s[..|s| - 1], from, to)
    ensures AreSpaces(s, from, to)
  {
    hide IsSpace;
    assert forall k :: 0 <= k < to ==> s[..|s| - 1][k] == s[k];
  }

  lemma {:induction false} OneMoreSpace(s: string, from: nat)
    requires s != "" && IsSpace(s[|s| - 1]) && AreSpaces(s, from, |s| - 1)
    ensures AreSpaces(s, from, |s|)
  {
    hide IsSpace;
  }

  /** Nothing is left exactly of a text that is nothing but spaces. */
  lemma {:induction false} BlankExactly(s: string)
    ensures Trim(s) == "" <==> AreSpaces(s, 0, |s|)
  {
    hide Trim, IsSpace, IsPartAt;
    TrimMeans(s);
    var i: nat, j: nat :| IsPartAt(s, Trim(s), i, j);
    BlankPart(s, Trim(s), i, j);
  }

  lemma {:induction false} BlankPart(s: string, r: string, i: nat, j: nat)
    requires IsPartAt(s, r, i, j) && (r != "" ==> !IsSpace(r[0]))
    ensures r == "" <==> AreSpaces(s, 0, |s|)
  {
    hide IsSpace;
    if i < j {
      assert r[0] == s[i];
    }
  }

  lemma {:induction false} LabelsMean(labels: seq<string>, bit: nat, text: string)
    ensures var r := SetLabel(labels, bit, text);
      && |r| == (if bit < |labels| then |labels| else bit + 1)
      && forall i :: 0 <= i < |r| ==> r[i] == if i == bit then text else if i < |labels| then labels[i] else ""
    decreases if bit < |labels| then 0 else bit - |labels| + 1
  {
    if bit >= |labels| {
      LabelsMean(labels + [""], bit, text);
    }
  }

  /** The text without spaces at its ends and cut to a length. */
  ghost predicate IsShortened(s: string, length: nat, r: string) {
    exists trimmed: string ::
      IsTrimmed(s, trimmed) && r <= trimmed && (if |trimmed| <= length then r == trimmed else |r| == length)
  }

  lemma {:induction false} ShorteningMeans(s: string, length: nat)
    ensures IsShortened(s, length, Take(Trim(s), length))
  {
    TrimMeans(s);
    var trimmed, r := Trim(s), Take(Trim(s), length);
    assert r <= trimmed && if |trimmed| <= length then r == trimmed else |r| == length;
  }

  /** Labelling a bit sets its label, cut to 32 characters, and no other. */
  lemma {:induction false} BitLabelEffect(d: Document, id: PanelId, bit: int, text: string)
    ensures var change := CommitBitLabel(d, id, bit, text);
      var t := change.document;
      if d.Has(id) && d.At(id).config.DigitalIo? && 0 <= bit < 8 then
        && change.dirty && t.Has(id) && OnlyEntry(d, t, id) && t == d.(instances := t.instances)
        && t.At(id).config.DigitalIo?
        && var before, after := d.At(id).config.bitLabels, t.At(id).config.bitLabels;
          && t.At(id) == d.At(id).(config := d.At(id).config.(bitLabels := after))
          && |after| == (if bit < |before| then |before| else bit + 1)
          && IsShortened(text, 32, after[bit])
          && forall i :: 0 <= i < |after| && i != bit ==> after[i] == if i < |before| then before[i] else ""
      else change == Change(d, false)
  {
    hide SetLabel, Take, Trim, SetInstance, IsShortened;
    if d.Has(id) && d.At(id).config.DigitalIo? && 0 <= bit <= 7 {
      var panel := d.At(id);
      var labels := SetLabel(panel.config.bitLabels, bit, Take(Trim(text), 32));
      LabelsMean(panel.config.bitLabels, bit, Take(Trim(text), 32));
      ShorteningMeans(text, 32);
      SettingOneEntry(d, id, panel.(config := panel.config.(bitLabels := labels)));
    }
  }

  /** Settings of the panel's kind are taken over whole; others are refused. */
  lemma {:induction false} SettingsEffect(d: Document, id: PanelId, config: Config)
    ensures var change := CommitSettings(d, id, config);
      var t := change.document;
      if d.Has(id) && d.At(id).kind == config.Kind() then
        && change.dirty && t.Has(id) && OnlyEntry(d, t, id) && t == d.(instances := t.instances)
        && t.At(id) == d.At(id).(config := config)
      else change == Change(d, false)
  {
    hide SetInstance;
    if d.Has(id) {
      SettingOneEntry(d, id, d.At(id).(config := config));
    }
  }
}
