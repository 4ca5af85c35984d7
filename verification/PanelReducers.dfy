/** The invariant over single actions. */
module PanelReducers {
  import opened Outcomes
  import opened Records
  import opened PanelTypes
  import opened PanelOperations
  import opened PanelInvariant

  // --- Changes to one panel --------------------------------------------------------------

  /** The panel keeps its identity, kind and place. */
  predicate Refits(d: Document, id: PanelId, panel: Instance)
    requires d.Has(id)
  {
    && panel.id == id && panel.kind == d.At(id).kind && panel.config.Kind() == panel.kind
    && panel.rect == d.At(id).rect
  }

  lemma {:induction false} RefittingKeepsCore(d: Document, id: PanelId, panel: Instance)
    requires Core(d) && d.Has(id) && Refits(d, id, panel)
    ensures Core(SetInstance(d, id, panel))
  {
    hide Sized, PlacedIn;
    var d' := SetInstance(d, id, panel);
    assert d'.instances.keys == d.instances.keys;
    assert forall x :: IsTerminal(d'.instances.values, x) <==> IsTerminal(d.instances.values, x);
  }

  /** Same panels and columns, and no sequence number goes back. */
  predicate NoNewNames(d: Document, d': Document) {
    && d'.instances.values.Keys <= d.instances.values.Keys
    && |d'.columns| == |d.columns|
    && (forall i :: 0 <= i < |d.columns| ==> d'.columns[i].id == d.columns[i].id)
    && d'.nextInstance >= d.nextInstance && d'.nextColumn == d.nextColumn
  }

  lemma {:induction false} NoNewNamesKeepsFresh(d: Document, d': Document)
    requires Fresh(d) && NoNewNames(d, d')
    ensures Fresh(d')
  {
  }

  /** Focus may go to any panel, and ownership to any terminal. */
  lemma {:induction false} RefocusingKeepsCore(d: Document, focused: Option<PanelId>, owner: Option<PanelId>)
    requires Core(d)
    requires focused.Some? ==> d.Has(focused.value)
    requires owner == d.owner || (owner.Some? && IsTerminal(d.instances.values, owner.value))
    ensures Core(d.(focused := focused, owner := owner))
  {
    hide Sized, PlacedIn;
    var d' := d.(focused := focused, owner := owner);
  }

  lemma {:induction false} ToFrontReorders(floating: seq<PanelId>, id: PanelId)
    requires multiset(floating)[id] == 1
    ensures multiset(ToFront(floating, id)) == multiset(floating)
    ensures forall x :: x in ToFront(floating, id) <==> x in floating
  {
    WithoutMultiset(floating, id);
    WithoutElements(floating, id);
    assert id in multiset(floating);
  }

  lemma {:induction false} FloatingOnce(d: Document, id: PanelId)
    requires d.instances.Valid() && PlacementOk(d) && id in d.floating
    ensures multiset(d.floating)[id] == 1 && d.Has(id)
  {
    hide PlacedIn;
    assert id in multiset(d.floating);
    CountAtMostOne(d.instances.keys, id);
    assert multiset(d.floating)[id] <= Placed(d)[id];
    assert id in multiset(d.instances.keys);
  }

  lemma {:induction false} ReorderingKeepsCore(d: Document, id: PanelId)
    requires Core(d) && id in d.floating
    ensures Core(d.(floating := ToFront(d.floating, id)))
  {
    hide Sized, PlacedIn, Without, ToFront;
    FloatingOnce(d, id);
    ToFrontReorders(d.floating, id);
    var d' := d.(floating := ToFront(d.floating, id));
  }

  // --- The terminal owner ---------------------------------------------------------------------

  /** A replacement is a terminal, and there is one whenever a terminal exists. */
  lemma {:induction false} ReplacementIsExact(d: Document)
    requires d.instances.Valid()
    ensures var r := VisibleTerminalReplacement(d);
      && (r.Some? ==> IsTerminal(d.instances.values, r.value))
      && (r.None? ==> forall id :: !IsTerminal(d.instances.values, id))
  {
    var any := FirstOfKind(d.instances.keys, d.instances.values, Terminal);
    if any.None? {
      forall id
        ensures !IsTerminal(d.instances.values, id)
      {
        assert d.Has(id) ==> id in d.instances.keys;
      }
    }
  }

  /** The replacement can be seen whenever a listed terminal can. */
  lemma {:induction false} ReplacementIsVisible(d: Document, id: PanelId)
    requires IsTerminal(d.instances.values, id) && !d.At(id).minimized
    requires id in ColumnPanels(d.columns) || id in d.floating
    ensures var r := VisibleTerminalReplacement(d); r.Some? && IsTerminal(d.instances.values, r.value) && !d.At(r.value).minimized
  {
    var candidates := Listed(d.focused) + Reversed(d.floating) + ColumnPanels(d.columns);
    ReversedElements(d.floating, id);
    assert id in candidates;
    VisibleIsFound(candidates, d.instances.values, id);
  }

  lemma {:induction false} ReversedElements(s: seq<PanelId>, x: PanelId)
    ensures x in Reversed(s) <==> x in s
  {
    if s != [] {
      ReversedElements(s[1..], x);
      assert s == [s[0]] + s[1..];
    }
  }

  lemma {:induction false} VisibleIsFound(ids: seq<PanelId>, instances: map<PanelId, Instance>, id: PanelId)
    requires id in ids && id in instances && instances[id].kind == Terminal && !instances[id].minimized
    ensures FirstVisibleTerminal(ids, instances).Some?
  {
    if ids[0] != id {
      assert id in ids[1..];
      VisibleIsFound(ids[1..], instances, id);
    }
  }

  /** Everything but the owner. */
  ghost predicate CoreButOwner(d: Document) {
    && ColumnCountOk(d) && InstancesOk(d.instances) && PlacementOk(d) && SizesOk(d.columns) && RectsOk(d.instances.values, d.floating) && FocusOk(d)
  }

  lemma {:induction false} ReplacingOwnerRestoresCore(d: Document, id: PanelId)
    requires CoreButOwner(d)
    requires d.owner != Some(id) ==> OwnerOk(d.owner, d.instances.values)
    ensures Core(ReplaceOwner(d, id))
  {
    hide Sized, PlacedIn, VisibleTerminalReplacement;
    ReplacementIsExact(d);
    var d' := ReplaceOwner(d, id);
  }

  // --- Closing ---------------------------------------------------------------------------------

  lemma {:induction false} DeletedKeys(d: Document, id: PanelId)
    requires d.instances.Valid() && d.Has(id) && |d.instances.keys| <= MAX_PANEL_INSTANCES
    ensures var r := d.instances.Delete(id);
      && r.Valid() && |r.keys| <= MAX_PANEL_INSTANCES
      && multiset(r.keys) + multiset{id} == multiset(d.instances.keys)
  {
    d.instances.DeleteKeepsValid(id);
    WithoutMultiset(d.instances.keys, id);
    CountOne(d.instances.keys, id);
    assert |multiset(d.instances.keys)| == |d.instances.keys|;
    assert |multiset(Without(d.instances.keys, id))| == |Without(d.instances.keys, id)|;
  }

  lemma {:induction false} CloseKeepsCore(d: Document, id: PanelId)
    requires Core(d)
    ensures Core(ClosePanel(d, id).document)
  {
    hide Sized, PlacedIn, Without, RemoveFromColumns, VisibleTerminalReplacement;
    if d.Has(id) {
      RemovePlacementUnplaces(d, id);
      DeletedKeys(d, id);
      var removed := RemovePlacement(d, id);
      var closed := removed.(
        instances := removed.instances.Delete(id),
        focused := if removed.focused == Some(id) then None else removed.focused);
      Cancel(Placed(closed), multiset(closed.instances.keys), multiset{id});
      assert CoreButOwner(closed);
      assert forall x :: IsTerminal(closed.instances.values, x) <==> IsTerminal(d.instances.values, x) && x != id;
      ReplacingOwnerRestoresCore(closed, id);
    }
  }

  lemma {:induction false} ClosedNames(d: Document, id: PanelId)
    requires Core(d)
    ensures NoNewNames(d, ClosePanel(d, id).document)
  {
    hide Sized, PlacedIn, Without, VisibleTerminalReplacement;
    if d.Has(id) {
      RemovePlacementSizes(d.columns, id);
    }
  }

  // --- Moving and floating --------------------------------------------------------------------------

  lemma {:induction false} MoveKeepsCore(d: Document, id: PanelId, column: ColumnId, index: Option<int>)
    requires Core(d)
    ensures Core(MovePanel(d, id, column, index).document)
    ensures NoNewNames(d, MovePanel(d, id, column, index).document)
  {
    hide Sized, PlacedIn, Without, RemoveFromColumns, InsertIntoColumn;
    var c := FindColumn(d.columns, column);
    if c.Some? && d.Has(id) {
      RemovePlacementUnplaces(d, id);
      var removed := WithRect(RemovePlacement(d, id), id, None);
      assert removed.instances.keys == d.instances.keys;
      PlaceInColumnPlaces(removed, c.value, index, id);
      var d' := MovePanel(d, id, column, index).document;
      assert forall x :: IsTerminal(d'.instances.values, x) <==> IsTerminal(d.instances.values, x);
      assert InstancesOk(d'.instances);
    }
  }

  lemma {:induction false} AppendPlaces(d: Document, id: PanelId)
    requires AllButOne(d, id)
    ensures PlacementOk(d.(floating := d.floating + [id]))
  {
    hide PlacedIn;
  }

  lemma {:induction false} ClampGivesClamped(rect: Rect)
    ensures Clamped(ClampFloatingRect(rect))
  {
  }

  lemma {:induction false} FloatKeepsCore(d: Document, id: PanelId, rect: Option<Rect>)
    requires Core(d)
    ensures Core(FloatPanel(d, id, rect).document)
    ensures NoNewNames(d, FloatPanel(d, id, rect).document)
  {
    hide Sized, PlacedIn, Without, RemoveFromColumns, ClampFloatingRect, Clamped;
    if d.Has(id) {
      RemovePlacementUnplaces(d, id);
      ClampGivesClamped(rect.GetOr(DEFAULT_RECT));
      var removed := WithRect(RemovePlacement(d, id), id, Some(ClampFloatingRect(rect.GetOr(DEFAULT_RECT))));
      assert removed.instances.keys == d.instances.keys;
      AppendPlaces(removed, id);
      var d' := FloatPanel(d, id, rect).document;
      assert forall x :: IsTerminal(d'.instances.values, x) <==> IsTerminal(d.instances.values, x);
      assert InstancesOk(d'.instances);
    }
  }

  lemma {:induction false} MoveFloatingKeepsCore(d: Document, id: PanelId, rect: Rect)
    requires Core(d)
    ensures Core(MoveFloatingPanel(d, id, rect).document)
    ensures NoNewNames(d, MoveFloatingPanel(d, id, rect).document)
  {
    hide Sized, PlacedIn, Without, ToFront, ClampFloatingRect, Clamped;
    if d.Has(id) && id in d.floating {
      ReorderingKeepsCore(d, id);
      ClampGivesClamped(rect);
      var front := d.(floating := ToFront(d.floating, id));
      var d' := MoveFloatingPanel(d, id, rect).document;
      FloatingOnce(d, id);
      ToFrontReorders(d.floating, id);
      assert d'.instances.keys == d.instances.keys;
      assert forall x :: IsTerminal(d'.instances.values, x) <==> IsTerminal(d.instances.values, x);
      assert InstancesOk(d'.instances);
    }
  }

  // --- Creating -------------------------------------------------------------------------------------

  lemma {:induction false} RegisteredInstances(d: Document, kind: Kind, config: Config, rect: Option<Rect>)
    requires InstancesOk(d.instances) && |d.instances.keys| < MAX_PANEL_INSTANCES && config.Kind() == kind
    requires !d.Has(NextId(d, kind))
    ensures var r := Register(d, kind, config, rect);
      InstancesOk(r.instances) && r.instances.keys == d.instances.keys + [NextId(d, kind)]
  {
    d.instances.SetKeepsValid(NextId(d, kind), Instance(NextId(d, kind), kind, DefaultTitle(kind), false, rect, config));
  }

  lemma {:induction false} PlacedNew(d: Document, id: PanelId, target: Target)
    requires d.columns != [] && AllButOne(d, id) && SizesOk(d.columns) && Distinct(d.instances.keys)
    ensures var d' := PlaceNew(d, id, target);
      && PlacementOk(d') && SizesOk(d'.columns) && SameFrame(d, d') && d'.instances == d.instances
      && d'.owner == d.owner && d'.floating == d.floating + if target.rect.Some? then [id] else []
  {
    hide Sized, PlacedIn, InsertIntoColumn;
    if target.rect.Some? {
      AppendPlaces(d, id);
    } else {
      PlaceInColumnPlaces(d, ChosenColumn(d, target), target.index, id);
    }
  }

  lemma {:induction false} UnplacedIsNowhere(d: Document, id: PanelId)
    requires PlacementOk(d) && id !in d.instances.keys
    ensures id !in d.floating
  {
    hide PlacedIn;
    assert id !in Placed(d);
    assert id in d.floating ==> id in multiset(d.floating);
  }

  /** A new panel keeps the invariant when its identifier is new. */
  lemma {:induction false} AddKeepsCore(d: Document, kind: Kind, target: Target, allocate: Allocator)
    requires Core(d) && !d.Has(NextId(d, kind))
    ensures Core(AddInstance(d, kind, target, allocate).document)
  {
    hide Sized, PlacedIn, PlaceNew, ClampFloatingRect, Clamped, NewConfiguration;
    if CanCreate(d, kind, allocate) {
      var id := NextId(d, kind);
      var registered := Register(d, kind, NewConfiguration(d, kind, allocate).value, ClampedTarget(target));
      NewConfigurationKind(d, kind, allocate);
      RegisteredInstances(d, kind, NewConfiguration(d, kind, allocate).value, ClampedTarget(target));
      assert AllButOne(registered, id);
      PlacedNew(registered, id, target);
      if target.rect.Some? {
        ClampGivesClamped(target.rect.value);
      }
      UnplacedIsNowhere(d, id);
      var d' := AddInstance(d, kind, target, allocate).document;
      assert forall x :: IsTerminal(d'.instances.values, x) <==>
               IsTerminal(d.instances.values, x) || (x == id && kind == Terminal);
    }
  }

  lemma {:induction false} NewConfigurationKind(d: Document, kind: Kind, allocate: Allocator)
    requires d.instances.Valid() && NewConfiguration(d, kind, allocate).Some?
    ensures NewConfiguration(d, kind, allocate).value.Kind() == kind
  {
  }

  /** With an identifier that is taken, the panel would be placed a second time. */
  lemma {:induction false} AddBreaksPlacement(d: Document, kind: Kind, target: Target, allocate: Allocator)
    requires Core(d) && d.Has(NextId(d, kind)) && CanCreate(d, kind, allocate)
    ensures !PlacementOk(AddInstance(d, kind, target, allocate).document)
  {
    hide Sized, PlacedIn, PlaceInColumn, NewConfiguration;
    var id := NextId(d, kind);
    var registered := Register(d, kind, NewConfiguration(d, kind, allocate).value, ClampedTarget(target));
    assert registered.instances.keys == d.instances.keys;
    var d' := AddInstance(d, kind, target, allocate).document;
    assert Placed(d') == Placed(d) + multiset{id} && d'.instances.keys == d.instances.keys by {
      if target.rect.None? {
        PlacedTwice(registered, ChosenColumn(registered, target), target.index, id);
      }
    }
    assert Placed(d')[id] == Placed(d)[id] + 1;
  }

  lemma {:induction false} PlacedTwice(d: Document, c: nat, index: Option<int>, id: PanelId)
    requires c < |d.columns|
    ensures PlacedIn(PlaceInColumn(d, c, index, id).columns) == PlacedIn(d.columns) + multiset{id}
    ensures PlaceInColumn(d, c, index, id).floating == d.floating
    ensures PlaceInColumn(d, c, index, id).instances == d.instances
  {
    hide NormalizedColumn, PlacedIn;
    var before := d.columns[c];
    var k := Clamp(index.GetOr(|before.panelIds|), |before.panelIds|);
    InsertedMultiset(before.panelIds, k, id);
    NormalizedKeepsPanels(before.(panelIds := Inserted(before.panelIds, k, id)));
    PlacedInGrows(d.columns, c, InsertIntoColumn(before, index, id), id);
  }

  /** A panel is created, and its identifier is taken. */
  predicate AddCollides(d: Document, kind: Kind, allocate: Allocator)
    requires d.instances.Valid()
  {
    CanCreate(d, kind, allocate) && d.Has(NextId(d, kind))
  }

  /** Creating a panel keeps every panel in one place if and only if nothing is
      created or the generated identifier is not yet taken. */
  lemma {:induction false} AddKeepsCoreExactly(d: Document, kind: Kind, target: Target, allocate: Allocator)
    requires Core(d)
    ensures Core(AddInstance(d, kind, target, allocate).document) <==> !AddCollides(d, kind, allocate)
  {
    if CanCreate(d, kind, allocate) {
      if d.Has(NextId(d, kind)) {
        AddBreaksPlacement(d, kind, target, allocate);
      } else {
        AddKeepsCore(d, kind, target, allocate);
      }
    }
  }

  lemma {:induction false} AddKeepsFresh(d: Document, kind: Kind, target: Target, allocate: Allocator)
    requires Core(d) && Fresh(d)
    ensures Fresh(AddInstance(d, kind, target, allocate).document)
  {
    hide Sized, PlacedIn, PlaceNew, NewConfiguration;
    if CanCreate(d, kind, allocate) {
      var id := NextId(d, kind);
      var registered := Register(d, kind, NewConfiguration(d, kind, allocate).value, ClampedTarget(target));
      NewConfigurationKind(d, kind, allocate);
      RegisteredInstances(d, kind, NewConfiguration(d, kind, allocate).value, ClampedTarget(target));
      assert AllButOne(registered, id);
      PlacedNew(registered, id, target);
    }
  }

  predicate DuplicateCollides(d: Document, id: PanelId, allocate: Allocator)
    requires d.instances.Valid()
  {
    d.Has(id) && AddCollides(d, d.At(id).kind, allocate)
  }

  lemma {:induction false} SettingKeepsPlacement(d: Document, id: PanelId, panel: Instance)
    requires d.Has(id)
    ensures PlacementOk(SetInstance(d, id, panel)) <==> PlacementOk(d)
  {
    hide PlacedIn;
  }

  lemma {:induction false} DuplicateBreaksPlacement(d: Document, id: PanelId, target: Target, allocate: Allocator)
    requires Core(d) && DuplicateCollides(d, id, allocate)
    ensures !PlacementOk(DuplicatePanel(d, id, target, allocate).document)
  {
    hide Sized, PlacementOk, SetInstance, CanCreate, AddInstance, RectsOk, OwnerOk;
    var source := d.At(id);
    var added := AddInstance(d, source.kind, target, allocate);
    AddBreaksPlacement(d, source.kind, target, allocate);
    AddedPanel(d, source.kind, target, allocate);
    if added.dirty {
      var copyId := NextId(d, source.kind);
      SettingKeepsPlacement(added.document, copyId, CopyOnto(added.document.At(copyId), source));
    }
  }

  /** The same for duplicating, where a panel is duplicated at all. */
  lemma {:induction false} DuplicateKeepsCoreExactly(d: Document, id: PanelId, target: Target, allocate: Allocator)
    requires Core(d)
    ensures Core(DuplicatePanel(d, id, target, allocate).document) <==> !DuplicateCollides(d, id, allocate)
  {
    hide Sized, PlacedIn, PlaceNew, SetInstance, CanCreate;
    if DuplicateCollides(d, id, allocate) {
      DuplicateBreaksPlacement(d, id, target, allocate);
    } else if d.Has(id) {
      var source := d.At(id);
      var added := AddInstance(d, source.kind, target, allocate);
      AddKeepsCoreExactly(d, source.kind, target, allocate);
      AddedPanel(d, source.kind, target, allocate);
      var copyId := NextId(d, source.kind);
      if added.dirty {
        RefittingKeepsCore(added.document, copyId, CopyOnto(added.document.At(copyId), source));
      }
    }
  }

  lemma {:induction false} AddedPanel(d: Document, kind: Kind, target: Target, allocate: Allocator)
    requires d.instances.Valid() && d.columns != []
    ensures var added := AddInstance(d, kind, target, allocate);
      added.dirty ==> added.document.Has(NextId(d, kind)) && added.document.At(NextId(d, kind)).kind == kind
  {
  }

  lemma {:induction false} DuplicateKeepsFresh(d: Document, id: PanelId, target: Target, allocate: Allocator)
    requires Core(d) && Fresh(d)
    ensures Fresh(DuplicatePanel(d, id, target, allocate).document)
  {
    hide Sized, PlacedIn, PlaceNew, CanCreate, AddInstance;
    if d.Has(id) {
      AddKeepsFresh(d, d.At(id).kind, target, allocate);
    }
  }

  // --- Settings, focus and owner ------------------------------------------------------------------------

  lemma {:induction false} MirroredEntries(keys: seq<PanelId>, values: map<PanelId, Instance>, device: DeviceId, config: Config)
    requires forall k :: k in keys ==> k in values
    ensures forall k :: k in values ==>
              Mirrored(keys, values, device, config)[k]
              == if k in keys then MirroredPanel(values[k], device, config) else values[k]
  {
    if keys != [] {
      MirroredEntries(keys[..|keys| - 1], values, device, config);
      assert keys == keys[..|keys| - 1] + [keys[|keys| - 1]];
    }
  }

  lemma {:induction false} HardwareKeepsCore(d: Document, id: PanelId, config: Config)
    requires Core(d) && !config.Plain?
    ensures Core(CommitHardwareConfiguration(d, id, config).document)
    ensures NoNewNames(d, CommitHardwareConfiguration(d, id, config).document)
  {
    hide Sized, PlacedIn, Mirrored;
    if d.Has(id) && d.At(id).kind == config.Kind() && !d.At(id).config.Plain? {
      var device := d.At(id).config.device;
      MirroredEntries(d.instances.keys, d.instances.values, device, config);
      var d' := CommitHardwareConfiguration(d, id, config).document;
      assert forall x :: x in d'.instances.values ==>
               d'.instances.values[x] == MirroredPanel(d.instances.values[x], device, config);
      assert forall x :: IsTerminal(d'.instances.values, x) <==> IsTerminal(d.instances.values, x);
    }
  }

  lemma {:induction false} BitLabelKeepsCore(d: Document, id: PanelId, bit: int, text: string)
    requires Core(d)
    ensures Core(CommitBitLabel(d, id, bit, text).document)
    ensures NoNewNames(d, CommitBitLabel(d, id, bit, text).document)
  {
    hide Sized, PlacedIn, SetLabel, Take, Trim;
    if d.Has(id) && d.At(id).config.DigitalIo? && 0 <= bit <= 7 {
      var panel := d.At(id);
      var labels := SetLabel(panel.config.bitLabels, bit, Take(Trim(text), 32));
      RefittingKeepsCore(d, id, panel.(config := panel.config.(bitLabels := labels)));
    }
  }

  lemma {:induction false} SettingsKeepCore(d: Document, id: PanelId, config: Config)
    requires Core(d)
    ensures Core(CommitSettings(d, id, config).document)
    ensures NoNewNames(d, CommitSettings(d, id, config).document)
  {
    hide Sized, PlacedIn;
    if d.Has(id) && d.At(id).kind == config.Kind() {
      RefittingKeepsCore(d, id, d.At(id).(config := config));
    }
  }

  lemma {:induction false} ToggleKeepsCore(d: Document, id: PanelId)
    requires Core(d)
    ensures Core(ToggleMinimized(d, id).document)
    ensures NoNewNames(d, ToggleMinimized(d, id).document)
  {
    hide Sized, PlacedIn, VisibleTerminalReplacement;
    if d.Has(id) {
      var panel := d.At(id).(minimized := !d.At(id).minimized);
      RefittingKeepsCore(d, id, panel);
      ReplacingOwnerRestoresCore(SetInstance(d, id, panel), id);
    }
  }

  lemma {:induction false} ExpandKeepsCore(d: Document, id: PanelId)
    requires Core(d) && d.Has(id)
    ensures Core(Expand(d, id)) && NoNewNames(d, Expand(d, id))
    ensures IsTerminal(Expand(d, id).instances.values, id) <==> IsTerminal(d.instances.values, id)
  {
    hide Sized, PlacedIn;
    RefittingKeepsCore(d, id, d.At(id).(minimized := false));
  }

  lemma {:induction false} FocusKeepsCore(d: Document, id: PanelId)
    requires Core(d)
    ensures Core(FocusPanel(d, id).document)
    ensures NoNewNames(d, FocusPanel(d, id).document)
  {
    hide Core, Expand, ToFront;
    if d.Has(id) {
      ExpandKeepsCore(d, id);
      var expanded := Expand(d, id);
      assert expanded.Has(id) && expanded.floating == d.floating by { ExpandedParts(d, id); }
      RefocusingKeepsCore(expanded, Some(id), expanded.owner);
      var focused := expanded.(focused := Some(id), owner := expanded.owner);
      if id in d.floating {
        ReorderingKeepsCore(focused, id);
      }
    }
  }

  lemma {:induction false} ExpandedParts(d: Document, id: PanelId)
    requires d.Has(id)
    ensures Expand(d, id).Has(id) && Expand(d, id).floating == d.floating
  {
  }

  lemma {:induction false} OwnerChoiceKeepsCore(d: Document, id: PanelId)
    requires Core(d)
    ensures Core(SetTerminalOwner(d, id).document)
    ensures NoNewNames(d, SetTerminalOwner(d, id).document)
  {
    hide Core, Expand;
    if IsTerminal(d.instances.values, id) {
      ExpandKeepsCore(d, id);
      ExpandedParts(d, id);
      RefocusingKeepsCore(Expand(d, id), Some(id), Some(id));
    }
  }

  predicate RevealCollides(d: Document, kind: Kind, allocate: Allocator)
    requires d.instances.Valid()
  {
    FirstOfKind(d.instances.keys, d.instances.values, kind).None? && AddCollides(d, kind, allocate)
  }

  /** And for revealing, where there is no panel of the kind yet. */
  lemma {:induction false} RevealKeepsCoreExactly(d: Document, kind: Kind, allocate: Allocator)
    requires Core(d)
    ensures Core(RevealKind(d, kind, allocate).document) <==> !RevealCollides(d, kind, allocate)
  {
    hide Expand, AddInstance;
    match FirstOfKind(d.instances.keys, d.instances.values, kind) {
      case Some(id) =>
        ExpandKeepsCore(d, id);
        ExpandedParts(d, id);
        RefocusingKeepsCore(Expand(d, id), Some(id), Expand(d, id).owner);
      case None => AddKeepsCoreExactly(d, kind, ANYWHERE, allocate);
    }
  }

  lemma {:induction false} RevealKeepsFresh(d: Document, kind: Kind, allocate: Allocator)
    requires Core(d) && Fresh(d)
    ensures Fresh(RevealKind(d, kind, allocate).document)
  {
    hide Sized, PlacedIn, AddInstance;
    if FirstOfKind(d.instances.keys, d.instances.values, kind).None? {
      AddKeepsFresh(d, kind, ANYWHERE, allocate);
    }
  }

  lemma {:induction false} BringToFrontKeepsCore(d: Document, id: PanelId)
    requires Core(d)
    ensures Core(BringToFront(d, id).document)
    ensures NoNewNames(d, BringToFront(d, id).document)
  {
    hide Core, ToFront;
    if id in d.floating {
      ReorderingKeepsCore(d, id);
      var front := d.(floating := ToFront(d.floating, id));
      assert d.Has(id) by { CoreFloatingIsKnown(d, id); }
      RefocusingKeepsCore(front, Some(id), front.owner);
    }
  }

  lemma {:induction false} CoreFloatingIsKnown(d: Document, id: PanelId)
    requires Core(d) && id in d.floating
    ensures d.Has(id)
  {
    FloatingOnce(d, id);
  }

  // --- Columns ---------------------------------------------------------------------------------------------

  lemma {:induction false} EmptyColumnIsSized(id: ColumnId, width: real)
    ensures Sized(Column(id, width, [], Empty()))
  {
  }

  lemma {:induction false} GrownParts(d: Document, count: nat)
    requires SizesOk(d.columns)
    ensures var g := Grown(d, count);
      && SizesOk(g.columns) && |g.columns| >= |d.columns| && |g.columns| >= count
      && (|g.columns| == count || g == d)
      && PlacedIn(g.columns) == PlacedIn(d.columns)
      && g == d.(columns := g.columns, nextColumn := g.nextColumn)
    decreases count - |d.columns|
  {
    hide Sized;
    if |d.columns| < count {
      var column := Column(Numbered(d.nextColumn), 1.0, [], Empty());
      var next := d.(columns := d.columns + [column], nextColumn := d.nextColumn + 1);
      EmptyColumnIsSized(column.id, 1.0);
      GrownParts(next, count);
      assert next.columns[..|next.columns| - 1] == d.columns;
    }
  }

  lemma {:induction false} GrownKeepsFresh(d: Document, count: nat)
    requires Fresh(d)
    ensures Fresh(Grown(d, count))
    decreases count - |d.columns|
  {
    if |d.columns| < count {
      var column := Column(Numbered(d.nextColumn), 1.0, [], Empty());
      GrownKeepsFresh(d.(columns := d.columns + [column], nextColumn := d.nextColumn + 1), count);
    }
  }

  lemma {:induction false} MergedPlacement(columns: seq<Column>, count: nat, column: Column)
    requires 1 <= count < |columns|
    requires multiset(column.panelIds) == multiset(columns[count - 1].panelIds) + PlacedIn(columns[count..])
    ensures PlacedIn(columns[..count][count - 1 := column]) == PlacedIn(columns)
  {
    hide PlacedIn;
    var kept := columns[..count];
    assert columns == kept + columns[count..];
    PlacedInConcatenation(kept, columns[count..]);
    PlacedInUpdate(kept, count - 1, column);
    Cancel(PlacedIn(kept[count - 1 := column]), PlacedIn(columns), multiset(columns[count - 1].panelIds));
  }

  lemma {:induction false} ShrunkParts(d: Document, count: nat)
    requires count >= 1 && SizesOk(d.columns) && PlacementOk(d) && Distinct(d.instances.keys)
    ensures var s := Shrunk(d, count);
      && SizesOk(s.columns) && |s.columns| == (if |d.columns| <= count then |d.columns| else count)
      && (forall i :: 0 <= i < |s.columns| ==> s.columns[i].id == d.columns[i].id)
      && PlacementOk(s) && s == d.(columns := s.columns)
  {
    hide Sized, PlacedIn, NormalizedColumn, ColumnPanels, Distinct;
    if |d.columns| > count {
      var last := d.columns[count - 1];
      var moved := ColumnPanels(d.columns[count..]);
      var merged := last.(panelIds := last.panelIds + moved);
      ColumnPanelsArePlaced(d.columns[count..]);
      NormalizedKeepsPanels(merged);
      MergedPlacement(d.columns, count, NormalizedColumn(merged));
      ColumnWithin(Shrunk(d, count).columns, count - 1);
      DistinctWithin(merged.panelIds, d.instances.keys);
      NormalizedIsSized(merged);
    }
  }

  lemma {:induction false} SamePlacement(columns: seq<Column>, other: seq<Column>)
    requires |columns| == |other| && forall i :: 0 <= i < |columns| ==> columns[i].panelIds == other[i].panelIds
    ensures PlacedIn(columns) == PlacedIn(other)
  {
    if columns != [] {
      SamePlacement(columns[..|columns| - 1], other[..|other| - 1]);
    }
  }

  /** Columns that differ in their widths alone. */
  ghost predicate SameButWidths(columns: seq<Column>, other: seq<Column>) {
    |columns| == |other| &&
    forall i :: 0 <= i < |columns| ==> other[i] == columns[i].(width := other[i].width)
  }

  lemma {:induction false} WidthsKeepParts(columns: seq<Column>, other: seq<Column>)
    requires SameButWidths(columns, other)
    ensures PlacedIn(other) == PlacedIn(columns)
    ensures SizesOk(columns) ==> SizesOk(other)
  {
    SamePlacement(columns, other);
    if SizesOk(columns) {
      forall i | 0 <= i < |other|
        ensures Sized(other[i])
      {
        assert Sized(columns[i]);
      }
    }
  }

  lemma {:induction false} ColumnCountKeepsCore(d: Document, n: int)
    requires Core(d)
    ensures Core(SetColumnCount(d, n).document)
  {
    hide Sized, PlacedIn, Grown, Shrunk;
    var count := ColumnLimit(n);
    GrownParts(d, count);
    var grown := Grown(d, count);
    ShrunkParts(grown, count);
    var resized := Shrunk(grown, count);
    WidthsKeepParts(resized.columns, WithWidths(resized.columns, 100.0 / count as real));
  }

  lemma {:induction false} ColumnCountKeepsFresh(d: Document, n: int)
    requires Core(d) && Fresh(d)
    ensures Fresh(SetColumnCount(d, n).document)
  {
    hide Sized, PlacedIn, Grown, Shrunk;
    var count := ColumnLimit(n);
    GrownParts(d, count);
    GrownKeepsFresh(d, count);
    ShrunkParts(Grown(d, count), count);
  }

  lemma {:induction false} WidthsKeepCore(d: Document, widths: seq<real>)
    requires Core(d)
    ensures Core(CommitColumnWidths(d, widths).document)
    ensures NoNewNames(d, CommitColumnWidths(d, widths).document)
  {
    hide Sized, PlacedIn, Share;
    if |widths| == |d.columns| && PositiveTotal(widths) > 0.0 {
      WidthsKeepParts(d.columns, ScaledWidths(d.columns, widths, PositiveTotal(widths)));
    }
  }

  lemma {:induction false} SizesKeepCore(d: Document, column: ColumnId, sizes: map<PanelId, real>)
    requires Core(d)
    ensures Core(CommitPanelSizes(d, column, sizes).document)
    ensures NoNewNames(d, CommitPanelSizes(d, column, sizes).document)
  {
    hide Sized, PlacedIn, NormalizedColumn, Picked;
    var c := FindColumn(d.columns, column);
    if c.Some? && CommitPanelSizes(d, column, sizes).dirty {
      var before := d.columns[c.value];
      var picked := before.(sizes := Picked(before.panelIds, sizes));
      assert Sized(before);
      SizedIsDistinct(before);
      NormalizedIsSized(picked);
      NormalizedKeepsPanels(picked);
      UpdatedSizes(d.columns, c.value, NormalizedColumn(picked));
      SamePlacement(d.columns, d.columns[c.value := NormalizedColumn(picked)]);
    }
  }

  // --- Column widths ----------------------------------------------------------------------------------

  function WidthTotal(columns: seq<Column>): real {
    if columns == [] then 0.0 else WidthTotal(columns[..|columns| - 1]) + columns[|columns| - 1].width
  }

  function Sum(widths: seq<real>): real {
    if widths == [] then 0.0 else Sum(widths[..|widths| - 1]) + widths[|widths| - 1]
  }

  lemma {:induction false} ScaledTotal(columns: seq<Column>, widths: seq<real>, total: real)
    requires |widths| == |columns| && total > 0.0
    ensures WidthTotal(ScaledWidths(columns, widths, total)) == Share(Sum(widths), total)
  {
    hide Share;
    if columns == [] {
      ShareOfNothing(total);
    } else {
      var last := |columns| - 1;
      ScaledTotal(columns[..last], widths[..last], total);
      ShareAdds(Sum(widths[..last]), widths[last], total);
      assert ScaledWidths(columns, widths, total)[..last] == ScaledWidths(columns[..last], widths[..last], total);
    }
  }

  lemma {:induction false} PositiveSumExactly(widths: seq<real>)
    ensures Sum(widths) <= PositiveTotal(widths)
    ensures Sum(widths) == PositiveTotal(widths) <==> forall i :: 0 <= i < |widths| ==> widths[i] >= 0.0
  {
    if widths != [] {
      PositiveSumExactly(widths[..|widths| - 1]);
      assert widths == widths[..|widths| - 1] + [widths[|widths| - 1]];
    }
  }

  lemma {:induction false} ShareIsHundredExactly(x: real, total: real)
    requires total > 0.0
    ensures Share(x, total) == 100.0 <==> x == total
  {
    assert x / total * total == x;
  }

  /** Committed widths make up 100 exactly when none of them is negative. */
  lemma {:induction false} CommittedWidthsMakeHundredExactly(d: Document, widths: seq<real>)
    requires CommitColumnWidths(d, widths).dirty
    ensures WidthTotal(CommitColumnWidths(d, widths).document.columns) == 100.0
            <==> forall i :: 0 <= i < |widths| ==> widths[i] >= 0.0
  {
    hide Share;
    var total := PositiveTotal(widths);
    ScaledTotal(d.columns, widths, total);
    PositiveSumExactly(widths);
    ShareIsHundredExactly(Sum(widths), total);
  }
}
