/** The layout store: its fields, updated in place by the reducers. */
module PanelStore {
  import opened Outcomes
  import opened Records
  import opened PanelTypes
  import O = PanelOperations
  import opened PanelPresets
  import opened PanelNormalization
  import opened PanelNormalizer
  import opened PanelState
  import opened PanelRuns

  class PanelLayoutStore {
    var name: string
    var columnCount: int
    var columns: seq<Column>
    var floating: seq<PanelId>
    var instances: Record<PanelId, Instance>
    var focused: Option<PanelId>
    var owner: Option<PanelId>
    var nextInstance: int
    var nextColumn: int

    var source: Option<SourceView>
    var dirty: bool
    var views: Record<string, View>
    var viewOrder: seq<string>

    const env: Environment

    function Layout(): Document
      reads this
    {
      Document(name, columnCount, columns, floating, instances, focused, owner, nextInstance, nextColumn)
    }

    function Contents(): State
      reads this
    {
      State(Layout(), source, dirty, views, viewOrder)
    }

    /** What is not part of the active layout. */
    function Rest(): (Option<SourceView>, Record<string, View>, seq<string>)
      reads this
    {
      (source, views, viewOrder)
    }

    ghost predicate Valid()
      reads this
    {
      Shaped(Layout())
    }

    constructor (layout: Document, env: Environment)
      ensures Contents() == State(layout, None, false, Empty(), []) && this.env == env
    {
      name, columnCount, columns, floating := layout.name, layout.columnCount, layout.columns, layout.floating;
      instances, focused, owner := layout.instances, layout.focused, layout.owner;
      nextInstance, nextColumn := layout.nextInstance, layout.nextColumn;
      source, dirty, views, viewOrder := None, false, Empty(), [];
      this.env := env;
    }

    method SetLayout(layout: Document)
      modifies this
      ensures Layout() == layout && Rest() == old(Rest()) && dirty == old(dirty)
    {
      name, columnCount, columns, floating := layout.name, layout.columnCount, layout.columns, layout.floating;
      instances, focused, owner := layout.instances, layout.focused, layout.owner;
      nextInstance, nextColumn := layout.nextInstance, layout.nextColumn;
    }

    // --- Helpers of the reducers ----------------------------------------------------------

    method RemovePlacement(id: PanelId)
      modifies this`columns, this`floating
      ensures Layout() == O.RemovePlacement(old(Layout()), id)
    {
      columns := RemoveFromEach(columns, id);
      floating := Without(floating, id);
    }

    method PlaceNew(id: PanelId, target: Target)
      requires columns != []
      modifies this`columns, this`floating
      ensures Layout() == O.PlaceNew(old(Layout()), id, target)
    {
      hide O.NormalizedColumn, O.LeastExpanded, O.FindColumn, Inserted;
      if target.rect.Some? {
        floating := floating + [id];
      } else {
        var found := if target.column.Some? then O.FindColumn(columns, target.column.value) else None;
        var c := if found.Some? then found.value else O.LeastExpanded(columns, instances.values);
        var k := Clamp(target.index.GetOr(|columns[c].panelIds|), |columns[c].panelIds|);
        columns := columns[c := columns[c].(panelIds := Inserted(columns[c].panelIds, k, id))];
        columns := columns[c := O.NormalizedColumn(columns[c])];
      }
    }

    method Register(kind: Kind, config: Config, rect: Option<Rect>)
      modifies this`instances, this`nextInstance
      ensures Layout() == O.Register(old(Layout()), kind, config, rect)
    {
      var id := Generated(kind, nextInstance);
      nextInstance := nextInstance + 1;
      instances := instances.Set(id, Instance(id, kind, O.DefaultTitle(kind), false, None, config));
      if rect.Some? {
        instances := instances.Set(id, instances.values[id].(rect := rect));
      }
    }

    method AddInstance(kind: Kind, target: Target) returns (added: bool)
      requires Valid()
      modifies this
      ensures var change := O.AddInstance(old(Layout()), kind, target, env.allocate);
        Contents() == old(Contents()).(layout := change.document) && added == change.dirty
    {
      hide O.PlaceNew, O.CreateConfiguration, Devices, InstanceList, ClampFloatingRect, O.Register;
      if |instances.keys| >= MAX_PANEL_INSTANCES {
        return false;
      }
      var id := Generated(kind, nextInstance);
      var devices := CollectDevices(InstanceList(instances));
      var config := O.CreateConfiguration(kind, id, devices, env.allocate);
      if config.None? {
        return false;
      }
      Register(kind, config.value, O.ClampedTarget(target));
      RegisterKeepsColumns(old(Layout()), kind, config.value, O.ClampedTarget(target));
      PlaceNew(id, target);
      focused := Some(id);
      if kind == Terminal && owner.None? {
        owner := Some(id);
      }
      added := true;
    }

    method MarkDirty()
      modifies this`dirty
      ensures dirty
    {
      dirty := true;
    }

    // --- Reducers -----------------------------------------------------------------------------

    method CreatePanel(kind: Kind, target: Target)
      requires Valid()
      modifies this
      ensures Contents() == Applied(old(Contents()), O.AddInstance(old(Layout()), kind, target, env.allocate))
    {
      hide O.AddInstance;
      var added := AddInstance(kind, target);
      if added {
        MarkDirty();
      }
    }

    method DuplicatePanel(id: PanelId, target: Target)
      requires Valid()
      modifies this
      ensures Contents() == Applied(old(Contents()), O.DuplicatePanel(old(Layout()), id, target, env.allocate))
    {
      hide O.AddInstance;
      if id !in instances.values {
        return;
      }
      var original := instances.values[id];
      var copyId := Generated(original.kind, nextInstance);
      var added := AddInstance(original.kind, target);
      if added {
        AddedIsPresent(old(Layout()), original.kind, target, env.allocate);
        var copy := instances.values[copyId].(title := original.title);
        if original.config.Plain? {
          copy := copy.(config := original.config);
        }
        instances := instances.Set(copyId, copy);
        MarkDirty();
      }
    }

    method CommitHardwareConfiguration(id: PanelId, config: Config)
      requires Valid() && !config.Plain?
      modifies this
      ensures Contents() == Applied(old(Contents()), O.CommitHardwareConfiguration(old(Layout()), id, config))
    {
      hide O.Mirrored;
      if id !in instances.values || instances.values[id].kind != config.Kind() {
        return;
      }
      if !instances.values[id].config.Plain? {
        var previous := instances.values[id].config.device;
        var values := Mirror(instances.keys, instances.values, previous, config);
        instances := Record(instances.keys, values);
      }
      MarkDirty();
    }

    method CommitDigitalIoBitLabel(id: PanelId, bit: int, text: string)
      modifies this
      ensures Contents() == Applied(old(Contents()), O.CommitBitLabel(old(Layout()), id, bit, text))
    {
      hide O.SetLabel, O.Take, O.Trim;
      if id !in instances.values || !instances.values[id].config.DigitalIo? || bit < 0 || bit > 7 {
        return;
      }
      var config := instances.values[id].config;
      config := config.(bitLabels := O.SetLabel(config.bitLabels, bit, O.Take(O.Trim(text), 32)));
      instances := instances.Set(id, instances.values[id].(config := config));
      MarkDirty();
    }

    /** For graphics, sound and debugger panels. */
    method CommitPanelConfiguration(id: PanelId, config: Config)
      modifies this
      ensures Contents() == Applied(old(Contents()), O.CommitSettings(old(Layout()), id, config))
    {
      if id !in instances.values || instances.values[id].kind != config.Kind() {
        return;
      }
      instances := instances.Set(id, instances.values[id].(config := config));
      MarkDirty();
    }

    method ClosePanel(id: PanelId)
      modifies this
      ensures Contents() == Applied(old(Contents()), O.ClosePanel(old(Layout()), id))
    {
      hide O.RemoveFromColumns, Without, O.VisibleTerminalReplacement;
      if id !in instances.values {
        return;
      }
      RemovePlacement(id);
      instances := instances.Delete(id);
      if focused == Some(id) {
        focused := None;
      }
      if owner == Some(id) {
        owner := O.VisibleTerminalReplacement(Layout());
      }
      MarkDirty();
    }

    method TogglePanelMinimized(id: PanelId)
      modifies this
      ensures Contents() == Applied(old(Contents()), O.ToggleMinimized(old(Layout()), id))
    {
      hide O.VisibleTerminalReplacement;
      if id !in instances.values {
        return;
      }
      var panel := instances.values[id];
      instances := instances.Set(id, panel.(minimized := !panel.minimized));
      if instances.values[id].minimized && owner == Some(id) {
        owner := O.VisibleTerminalReplacement(Layout());
      }
      MarkDirty();
    }

    method FocusPanel(id: PanelId)
      modifies this
      ensures Contents() == Applied(old(Contents()), O.FocusPanel(old(Layout()), id))
    {
      hide Without;
      if id !in instances.values {
        return;
      }
      instances := instances.Set(id, instances.values[id].(minimized := false));
      focused := Some(id);
      if id in floating {
        floating := Without(floating, id);
        floating := floating + [id];
      }
    }

    method SetTerminalOwner(id: PanelId)
      modifies this
      ensures Contents() == Applied(old(Contents()), O.SetTerminalOwner(old(Layout()), id))
    {
      if id !in instances.values || instances.values[id].kind != Terminal {
        return;
      }
      instances := instances.Set(id, instances.values[id].(minimized := false));
      owner := Some(id);
      focused := Some(id);
      MarkDirty();
    }

    method RevealPanelKind(kind: Kind)
      requires Valid()
      modifies this
      ensures Contents() == Applied(old(Contents()), O.RevealKind(old(Layout()), kind, env.allocate))
    {
      hide O.AddInstance, O.FirstOfKind;
      var found := O.FirstOfKind(instances.keys, instances.values, kind);
      if found.Some? {
        instances := instances.Set(found.value, instances.values[found.value].(minimized := false));
        focused := Some(found.value);
      } else {
        var added := AddInstance(kind, O.ANYWHERE);
        if added {
          MarkDirty();
        }
      }
    }

    method GrowTo(count: nat)
      modifies this`columns, this`nextColumn
      ensures Layout() == O.Grown(old(Layout()), count)
    {
      while |columns| < count
        invariant O.Grown(Layout(), count) == O.Grown(old(Layout()), count)
        decreases count - |columns|
      {
        columns := columns + [Column(Numbered(nextColumn), 1.0, [], Empty())];
        nextColumn := nextColumn + 1;
      }
    }

    method ShrinkTo(count: nat)
      requires count >= 1
      modifies this`columns
      ensures Layout() == O.Shrunk(old(Layout()), count)
    {
      hide O.NormalizedColumn, ColumnPanels;
      if |columns| > count {
        var removed := columns[count..];
        columns := columns[..count];
        columns := columns[count - 1 := columns[count - 1].(panelIds := columns[count - 1].panelIds + ColumnPanels(removed))];
        columns := columns[count - 1 := O.NormalizedColumn(columns[count - 1])];
      }
    }

    method SetColumnCount(n: int)
      modifies this
      ensures Contents() == Applied(old(Contents()), O.SetColumnCount(old(Layout()), n))
    {
      hide O.Grown, O.Shrunk, O.WithWidths;
      var count := O.ColumnLimit(n);
      GrowTo(count);
      ShrinkTo(count);
      columnCount := count;
      WidenAll(100.0 / count as real);
      MarkDirty();
    }

    method WidenAll(width: real)
      modifies this`columns
      ensures columns == O.WithWidths(old(columns), width)
    {
      var c := 0;
      while c < |columns|
        invariant 0 <= c <= |columns| == |old(columns)|
        invariant forall i :: 0 <= i < c ==> columns[i] == old(columns)[i].(width := width)
        invariant forall i :: c <= i < |columns| ==> columns[i] == old(columns)[i]
      {
        columns := columns[c := columns[c].(width := width)];
        c := c + 1;
      }
    }

    method CommitColumnWidths(widths: seq<real>)
      modifies this
      ensures Contents() == Applied(old(Contents()), O.CommitColumnWidths(old(Layout()), widths))
    {
      hide O.Share, O.PositiveTotal;
      if |widths| != |columns| {
        return;
      }
      var total := O.PositiveTotal(widths);
      if total <= 0.0 {
        return;
      }
      ghost var before := columns;
      var c := 0;
      while c < |columns|
        invariant 0 <= c <= |columns| == |before|
        invariant forall i :: 0 <= i < c ==> columns[i] == before[i].(width := O.Share(widths[i], total))
        invariant forall i :: c <= i < |columns| ==> columns[i] == before[i]
        invariant Layout() == old(Layout()).(columns := columns)
        invariant Rest() == old(Rest()) && dirty == old(dirty)
      {
        columns := columns[c := columns[c].(width := O.Share(widths[c], total))];
        c := c + 1;
      }
      assert columns == O.ScaledWidths(before, widths, total);
      MarkDirty();
    }

    method CommitPanelSizes(column: ColumnId, sizes: map<PanelId, real>)
      modifies this
      ensures Contents() == Applied(old(Contents()), O.CommitPanelSizes(old(Layout()), column, sizes))
    {
      hide O.NormalizedColumn, O.Picked, O.FindColumn;
      var c := O.FindColumn(columns, column);
      if c.None? || |columns[c.value].panelIds| < 2 {
        return;
      }
      var ids := columns[c.value].panelIds;
      if exists k :: 0 <= k < |ids| && (ids[k] !in sizes || sizes[ids[k]] <= 0.0) {
        return;
      }
      columns := columns[c.value := columns[c.value].(sizes := O.Picked(ids, sizes))];
      columns := columns[c.value := O.NormalizedColumn(columns[c.value])];
      MarkDirty();
    }

    method MovePanel(id: PanelId, column: ColumnId, index: Option<int>)
      modifies this
      ensures Contents() == Applied(old(Contents()), O.MovePanel(old(Layout()), id, column, index))
    {
      hide O.RemoveFromColumns, Without, O.FindColumn, O.NormalizedColumn, Inserted;
      var c := O.FindColumn(columns, column);
      if c.None? || id !in instances.values {
        return;
      }
      RemovePlacement(id);
      instances := instances.Set(id, instances.values[id].(rect := None));
      var ids := columns[c.value].panelIds;
      columns := columns[c.value := columns[c.value].(panelIds := Inserted(ids, Clamp(index.GetOr(|ids|), |ids|), id))];
      columns := columns[c.value := O.NormalizedColumn(columns[c.value])];
      focused := Some(id);
      MarkDirty();
    }

    method FloatPanel(id: PanelId, rect: Option<Rect>)
      modifies this
      ensures Contents() == Applied(old(Contents()), O.FloatPanel(old(Layout()), id, rect))
    {
      hide O.RemoveFromColumns, Without, ClampFloatingRect;
      if id !in instances.values {
        return;
      }
      RemovePlacement(id);
      instances := instances.Set(id, instances.values[id].(rect := Some(ClampFloatingRect(rect.GetOr(DEFAULT_RECT)))));
      floating := floating + [id];
      focused := Some(id);
      MarkDirty();
    }

    method MoveFloatingPanel(id: PanelId, rect: Rect)
      modifies this
      ensures Contents() == Applied(old(Contents()), O.MoveFloatingPanel(old(Layout()), id, rect))
    {
      hide Without, ClampFloatingRect;
      if id !in instances.values || id !in floating {
        return;
      }
      instances := instances.Set(id, instances.values[id].(rect := Some(ClampFloatingRect(rect))));
      floating := Without(floating, id);
      floating := floating + [id];
      focused := Some(id);
      MarkDirty();
    }

    method BringFloatingPanelToFront(id: PanelId)
      modifies this
      ensures Contents() == Applied(old(Contents()), O.BringToFront(old(Layout()), id))
    {
      hide Without;
      if id !in floating {
        return;
      }
      floating := Without(floating, id);
      floating := floating + [id];
      focused := Some(id);
    }

    method ResetToPreset(preset: PresetId)
      modifies this
      ensures Contents() == Replaced(old(Contents()), Preset(DefinitionOf(preset), env.allocate), Some(OfPreset(preset)), false)
    {
      hide Preset, DefinitionOf;
      var layout := BuildPreset(DefinitionOf(preset), env.allocate);
      if layout.Some? {
        SetLayout(layout.value);
        source := Some(OfPreset(preset));
        dirty := false;
      }
    }

    method ReplaceActiveLayout(raw: RawDocument)
      requires raw.RawDocument? ==> raw.instances.Valid()
      modifies this
      ensures Contents() == Replaced(old(Contents()), NormalizeDocument(raw, env.configure, env.allocate), old(source), true)
    {
      hide NormalizeDocument;
      var layout := NormalizePanelLayoutDocument(raw, env.configure, env.allocate);
      if layout.Some? {
        SetLayout(layout.value);
        dirty := true;
      }
    }

    method RestoreSourceIdeBaseline(raw: RawDocument, source': Option<SourceView>, dirty': bool)
      requires raw.RawDocument? ==> raw.instances.Valid()
      modifies this
      ensures Contents() == Replaced(old(Contents()), NormalizeDocument(raw, env.configure, env.allocate), source', dirty')
    {
      hide NormalizeDocument;
      var layout := NormalizePanelLayoutDocument(raw, env.configure, env.allocate);
      if layout.Some? {
        SetLayout(layout.value);
        source := source';
        dirty := dirty';
      }
    }

    method HydratePanelLayout(stored: RawState)
      requires IsReadable(stored.active) && AreReadable(stored.views)
      modifies this
      ensures Contents() == Hydrated(stored, env).GetOr(old(Contents()))
    {
      hide NormalizeDocument, HydratedViews, OrderOf, KeptSource;
      var hydrated := ReadViews(stored.views, env);
      if hydrated.None? {
        return;
      }
      var order := ReadOrder(stored.order, hydrated.value);
      var layout := NormalizePanelLayoutDocument(stored.active, env.configure, env.allocate);
      if layout.Some? {
        SetLayout(layout.value);
        source, dirty := KeptSource(stored.source, hydrated.value.values), stored.dirty;
        views, viewOrder := hydrated.value, order;
      }
    }

    method SaveView(view: string, title: string)
      requires Valid()
      modifies this
      ensures Contents() == Saving(old(Contents()), view, title, env)
    {
      hide ViewName, NormalizeDocument, Saved, ShapedState;
      var trimmed := ViewName(title);
      if trimmed == "" || (view !in views.values && |viewOrder| >= MAX_SAVED_PANEL_VIEWS) {
        return;
      }
      var document := NormalizePanelLayoutDocument(Saved(Layout()), env.configure, env.allocate);
      if document.Some? {
        views := views.Set(view, View(view, trimmed, document.value));
        if view !in viewOrder {
          viewOrder := viewOrder + [view];
        }
        source := Some(OfView(view));
        dirty := false;
      }
    }

    method RestoreView(view: string)
      requires ShapedState(Contents())
      modifies this
      ensures Contents() == Restored(old(Contents()), view, env)
    {
      hide NormalizeDocument, Saved, Shaped;
      if view !in views.values {
        return;
      }
      assert views.values[view].document.instances.Valid();
      var layout := NormalizePanelLayoutDocument(Saved(views.values[view].document), env.configure, env.allocate);
      if layout.Some? {
        SetLayout(layout.value);
        source := Some(OfView(views.values[view].id));
        dirty := false;
      }
    }

    method RenameView(view: string, title: string)
      modifies this
      ensures Contents() == Renamed(old(Contents()), view, title)
    {
      hide ViewName;
      if view in views.values && ViewName(title) != "" {
        views := views.Set(view, views.values[view].(name := ViewName(title)));
      }
    }

    method DeleteView(view: string)
      modifies this
      ensures Contents() == Deleted(old(Contents()), view)
    {
      hide Without;
      if view !in views.values {
        return;
      }
      views := views.Delete(view);
      viewOrder := Without(viewOrder, view);
      if source == Some(OfView(view)) {
        source := None;
      }
    }
  }

  method ReadViews(raws: Record<string, Option<RawView>>, env: Environment) returns (r: Option<Record<string, View>>)
    requires AreReadable(raws)
    ensures r == HydratedViews(raws, Within(|raws.keys|, MAX_SAVED_PANEL_VIEWS), env)
  {
    hide NormalizeDocument, StoredName;
    var n := Within(|raws.keys|, MAX_SAVED_PANEL_VIEWS);
    var views: Record<string, View> := Empty();
    for i := 0 to n
      invariant HydratedViews(raws, i, env) == Some(views)
    {
      var id := raws.keys[i];
      var raw := raws.values[id];
      if IsKept(id, raw) {
        var document := NormalizePanelLayoutDocument(raw.value.document, env.configure, env.allocate);
        if document.None? {
          StoppedViews(raws, i + 1, n, env);
          return None;
        }
        views := views.Set(id, View(id, StoredName(raw.value.name), document.value));
      }
    }
    r := Some(views);
  }

  lemma {:induction false} StoppedViews(raws: Record<string, Option<RawView>>, k: nat, n: nat, env: Environment)
    requires AreReadable(raws) && k <= n <= |raws.keys| && HydratedViews(raws, k, env).None?
    ensures HydratedViews(raws, n, env).None?
    decreases n
  {
    hide NormalizeDocument, StoredName;
    if k < n {
      StoppedViews(raws, k, n - 1, env);
    }
  }

  /** Keeps the stored order of the views there are, and adds the others. */
  method ReadOrder(stored: seq<string>, views: Record<string, View>) returns (order: seq<string>)
    requires views.Valid()
    ensures order == OrderOf(stored, views)
  {
    order := [];
    for i := 0 to |stored|
      invariant order == Listed(stored[..i], views.values)
    {
      assert stored[..i + 1][..i] == stored[..i];
      if stored[i] in views.values {
        order := order + [stored[i]];
      }
    }
    assert stored[..|stored|] == stored;
    ghost var listed := order;
    for i := 0 to |views.keys|
      invariant order == listed + Unlisted(views.keys[..i], listed)
    {
      assert views.keys[..i + 1][..i] == views.keys[..i];
      UnlistedElements(views.keys[..i], listed);
      if views.keys[i] !in order {
        order := order + [views.keys[i]];
      }
    }
    assert views.keys[..|views.keys|] == views.keys;
  }

  lemma {:induction false} RegisterKeepsColumns(d: Document, kind: Kind, config: Config, rect: Option<Rect>)
    ensures O.Register(d, kind, config, rect).columns == d.columns
  {
  }

  method RemoveFromEach(columns: seq<Column>, id: PanelId) returns (removed: seq<Column>)
    ensures removed == O.RemoveFromColumns(columns, id)
  {
    hide O.RemoveFromColumn;
    removed := [];
    for c := 0 to |columns|
      invariant removed == O.RemoveFromColumns(columns[..c], id)
    {
      assert columns[..c + 1][..c] == columns[..c];
      removed := removed + [O.RemoveFromColumn(columns[c], id)];
    }
    assert columns[..|columns|] == columns;
  }

  /** Rebinds every panel of the device. */
  method Mirror(keys: seq<PanelId>, before: map<PanelId, Instance>, device: DeviceId, config: Config)
    returns (values: map<PanelId, Instance>)
    requires forall k :: k in keys ==> k in before
    ensures values == O.Mirrored(keys, before, device, config)
  {
    values := before;
    for k := 0 to |keys|
      invariant values == O.Mirrored(keys[..k], before, device, config)
    {
      assert keys[..k + 1][..k] == keys[..k];
      var candidate := before[keys[k]];
      if candidate.config.Kind() == config.Kind() && !candidate.config.Plain? && candidate.config.device == device {
        candidate := candidate.(config := config);
      }
      values := values[keys[k] := candidate];
    }
    assert keys[..|keys|] == keys;
  }

  /** The configured devices, the first of each identifier. */
  method CollectDevices(instances: seq<Instance>) returns (devices: seq<Config>)
    ensures devices == Devices(instances)
  {
    devices := [];
    var seen: set<DeviceId> := {};
    for i := 0 to |instances|
      invariant devices == Devices(instances[..i])
      invariant forall id :: id in seen <==> Known(devices, id)
    {
      assert instances[..i + 1][..i] == instances[..i];
      var config := instances[i].config;
      if !config.Plain? && config.device !in seen {
        seen := seen + {config.device};
        KnownGrows(devices, config);
        devices := devices + [config];
      }
    }
    assert instances[..|instances|] == instances;
  }

  lemma {:induction false} KnownGrows(devices: seq<Config>, config: Config)
    requires !config.Plain?
    ensures forall id :: Known(devices + [config], id) <==> Known(devices, id) || id == config.device
  {
    forall id
      ensures Known(devices + [config], id) <==> Known(devices, id) || id == config.device
    {
      if Known(devices, id) {
        var k :| 0 <= k < |devices| && !devices[k].Plain? && devices[k].device == id;
        assert (devices + [config])[k] == devices[k];
      }
      assert (devices + [config])[|devices|] == config;
    }
  }

  lemma {:induction false} AddedIsPresent(d: Document, kind: Kind, target: Target, allocate: O.Allocator)
    requires Shaped(d)
    ensures var change := O.AddInstance(d, kind, target, allocate);
      change.dirty ==> change.document.Has(O.NextId(d, kind))
  {
  }
}
