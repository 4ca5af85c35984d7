/** Normalising a layout document read from storage. */
module PanelNormalization {
  import opened Outcomes
  import opened Records
  import opened PanelTypes
  import opened PanelOperations
  import opened PanelInvariant
  import opened PanelReducers
  import opened PanelPresets

  /** A rectangle's finite coordinates. */
  datatype RawRect = RawRect(x: Option<real>, y: Option<real>, width: Option<real>, height: Option<real>)

  /** An instance as stored; fields of a wrong type count as missing. */
  datatype RawInstance = RawInstance(
    kind: Option<Kind>, title: Option<string>, minimized: bool, rect: Option<RawRect>, settings: Option<Config>)

  /** A column as stored: its strings and finite numbers. */
  datatype RawColumn = RawColumn(
    id: Option<ColumnId>, width: Option<real>, panelIds: seq<PanelId>, sizes: map<PanelId, real>)

  /** A document after migration, as stored; it is unusable without a list of
      columns and a table of instances. */
  datatype RawDocument =
    | Unusable
    | RawDocument(
        name: Option<string>,
        columnCount: Option<int>,
        columns: seq<RawColumn>,
        floating: seq<PanelId>,
        instances: Record<PanelId, RawInstance>,
        focused: Option<PanelId>,
        owner: Option<PanelId>,
        nextInstance: Option<int>,
        nextColumn: Option<int>)

  /** The settings normaliser, which is not part of this model. It fails when
      no device addresses are left, and otherwise returns settings of the panel's kind. */
  type Configurer = (Kind, PanelId, Option<Config>, seq<Instance>) -> Option<Config>

  ghost predicate KeepsKind(configure: Configurer) {
    forall kind, id, raw, before :: configure(kind, id, raw, before).Some? ==>
      configure(kind, id, raw, before).value.Kind() == kind
  }

  // --- Instances --------------------------------------------------------------------------

  function ClampRawRect(rect: RawRect): Rect {
    ClampFloatingRect(Rect(rect.x.GetOr(DEFAULT_RECT.x), rect.y.GetOr(DEFAULT_RECT.y),
                           rect.width.GetOr(DEFAULT_RECT.width), rect.height.GetOr(DEFAULT_RECT.height)))
  }

  function NormalTitle(title: Option<string>, kind: Kind): string {
    if title.Some? && Trim(title.value) != "" then Take(Trim(title.value), 80) else DefaultTitle(kind)
  }

  function NormalInstance(id: PanelId, raw: RawInstance, kind: Kind, config: Config): Instance {
    Instance(id, kind, NormalTitle(raw.title, kind), raw.minimized,
             match raw.rect case Some(rect) => Some(ClampRawRect(rect)) case None => None, config)
  }

  /** The instances of the first `n` entries; entries of an unknown kind are dropped. */
  function NormalInstances(raws: Record<PanelId, RawInstance>, n: nat, configure: Configurer)
    : (r: Option<Record<PanelId, Instance>>)
    requires raws.Valid() && n <= |raws.keys|
    ensures r.Some? ==> r.value.Valid() && |r.value.keys| <= n
  {
    if n == 0 then Some(Empty())
    else
      match NormalInstances(raws, n - 1, configure)
      case None => None
      case Some(before) =>
        var id := raws.keys[n - 1];
        var raw := raws.values[id];
        if raw.kind.None? then Some(before)
        else
          match configure(raw.kind.value, id, raw.settings, InstanceList(before))
          case None => None
          case Some(config) => Some(before.Set(id, NormalInstance(id, raw, raw.kind.value, config)))
  }

  // --- Placement ------------------------------------------------------------------------------

  /** The identifiers that are known and not yet placed, each once. */
  function TakeNew(ids: seq<PanelId>, known: set<PanelId>, seen: seq<PanelId>): seq<PanelId> {
    if ids == [] then []
    else
      var front := TakeNew(ids[..|ids| - 1], known, seen);
      var id := ids[|ids| - 1];
      if id in known && id !in seen && id !in front then front + [id] else front
  }

  /** Sizes below a tenth count as a tenth, missing ones as one. */
  function Raised(ids: seq<PanelId>, sizes: map<PanelId, real>): Record<PanelId, real> {
    Record(ids, map id | id in ids :: Max(0.1, if id in sizes then sizes[id] else 1.0))
  }

  function WithNormalSizes(column: Column): Column {
    NormalizedColumn(column.(sizes := Raised(column.panelIds, column.sizes.values)))
  }

  function NormalColumn(raw: RawColumn, index: nat, count: nat, ids: seq<PanelId>): Column
    requires count > 0
  {
    WithNormalSizes(Column(raw.id.GetOr(Numbered(index + 1)), raw.width.GetOr(100.0 / count as real), ids,
                           Record([], raw.sizes)))
  }

  function NormalColumns(raws: seq<RawColumn>, count: nat, known: set<PanelId>): (columns: seq<Column>)
    requires count > 0
    ensures |columns| == |raws|
  {
    if raws == [] then []
    else
      var front := NormalColumns(raws[..|raws| - 1], count, known);
      var raw := raws[|raws| - 1];
      front + [NormalColumn(raw, |front|, count, TakeNew(raw.panelIds, known, ColumnPanels(front)))]
  }

  function Padded(columns: seq<Column>, count: nat): (padded: seq<Column>)
    requires count > 0
    ensures |padded| >= |columns| && |padded| >= count
    ensures |columns| <= count ==> |padded| == count
    decreases count - |columns|
  {
    if |columns| >= count then columns
    else Padded(columns + [Column(Numbered(|columns| + 1), 100.0 / count as real, [], Empty())], count)
  }

  function Adopted(columns: seq<Column>, orphans: seq<PanelId>): seq<Column>
    requires columns != []
  {
    columns[0 := columns[0].(panelIds := columns[0].panelIds + orphans)]
  }

  function Resized(columns: seq<Column>): (resized: seq<Column>)
    ensures |resized| == |columns|
  {
    seq(|columns|, i requires 0 <= i < |columns| => WithNormalSizes(columns[i]))
  }

  function Broad(width: real): real {
    Max(0.1, width)
  }

  function BroadTotal(columns: seq<Column>): (total: real)
    ensures total >= 0.0 && (columns != [] ==> total > 0.0)
  {
    if columns == [] then 0.0 else BroadTotal(columns[..|columns| - 1]) + Broad(columns[|columns| - 1].width)
  }

  function Rewidened(columns: seq<Column>): (rewidened: seq<Column>)
    ensures |rewidened| == |columns|
  {
    seq(|columns|, i requires 0 <= i < |columns| =>
      columns[i].(width := Share(Broad(columns[i].width), BroadTotal(columns))))
  }

  function SettledRect(rect: Option<Rect>, floats: bool): Option<Rect> {
    if floats then Some(ClampFloatingRect(rect.GetOr(DEFAULT_RECT))) else None
  }

  /** Exactly the floating panels keep a rectangle. */
  function Settled(instances: Record<PanelId, Instance>, floating: seq<PanelId>): Record<PanelId, Instance> {
    instances.(values := map id | id in instances.values ::
      instances.values[id].(rect := SettledRect(instances.values[id].rect, id in floating)))
  }

  datatype Placement = Placement(columns: seq<Column>, floating: seq<PanelId>)

  function PlaceAll(raw: RawDocument, keys: seq<PanelId>, count: nat): (p: Placement)
    requires raw.RawDocument? && count > 0
    ensures |p.columns| == count
  {
    var known := set id | id in keys;
    var raws := if |raw.columns| <= count then raw.columns else raw.columns[..count];
    var columns := Padded(NormalColumns(raws, count, known), count);
    var floating := TakeNew(raw.floating, known, ColumnPanels(columns));
    var orphans := TakeNew(keys, known, ColumnPanels(columns) + floating);
    Placement(Rewidened(Resized(Adopted(columns, orphans))), floating)
  }

  function CountOf(raw: RawDocument): (count: nat)
    requires raw.RawDocument?
    ensures 1 <= count <= MAX_PANEL_COLUMNS
  {
    ColumnLimit(raw.columnCount.GetOr(|raw.columns|))
  }

  function Within(n: nat, limit: nat): (m: nat)
    ensures m <= n && m <= limit
  {
    if n <= limit then n else limit
  }

  function NormalOwner(requested: Option<PanelId>, instances: Record<PanelId, Instance>): Option<PanelId> {
    if requested.Some? && IsTerminal(instances.values, requested.value) then requested
    else FirstOfKind(instances.keys, instances.values, Terminal)
  }

  function Assemble(raw: RawDocument, instances: Record<PanelId, Instance>): Document
    requires raw.RawDocument?
  {
    var count := CountOf(raw);
    var placed := PlaceAll(raw, instances.keys, count);
    var settled := Settled(instances, placed.floating);
    Document(
      if raw.name.Some? then Take(raw.name.value, 80) else "Workspace", |placed.columns|, placed.columns, placed.floating,
      settled,
      if raw.focused.Some? && raw.focused.value in instances.values then raw.focused else None,
      NormalOwner(raw.owner, settled),
      MaxInt(1, raw.nextInstance.GetOr(|instances.keys| + 1)),
      MaxInt(|placed.columns| + 1, raw.nextColumn.GetOr(|placed.columns| + 1)))
  }

  /** The document used instead of `raw`; a layout without panels gives way to the classic preset. */
  function NormalizeDocument(raw: RawDocument, configure: Configurer, allocate: Allocator): Option<Document>
    requires raw.RawDocument? ==> raw.instances.Valid()
  {
    if raw.Unusable? then Preset(DefinitionOf(Classic), allocate)
    else
      match NormalInstances(raw.instances, Within(|raw.instances.keys|, MAX_PANEL_INSTANCES), configure)
      case None => None
      case Some(instances) =>
        if instances.keys == [] then Preset(DefinitionOf(Classic), allocate) else Some(Assemble(raw, instances))
  }

  // --- What normalising establishes ---------------------------------------------------------------

  lemma {:induction false} NormalInstancesAreKept(raws: Record<PanelId, RawInstance>, n: nat, configure: Configurer)
    requires KeepsKind(configure) && raws.Valid() && n <= |raws.keys| && NormalInstances(raws, n, configure).Some?
    ensures var r := NormalInstances(raws, n, configure).value;
      forall id :: id in r.values ==> KeptUnder(r.values[id], id)
  {
    hide InstanceList, NormalTitle, ClampRawRect;
    if n > 0 {
      NormalInstancesAreKept(raws, n - 1, configure);
    }
  }

  lemma {:induction false} TakeNewElements(ids: seq<PanelId>, known: set<PanelId>, seen: seq<PanelId>)
    ensures forall id :: id in TakeNew(ids, known, seen) <==> id in ids && id in known && id !in seen
    ensures Distinct(TakeNew(ids, known, seen))
  {
    if ids != [] {
      TakeNewElements(ids[..|ids| - 1], known, seen);
      assert ids == ids[..|ids| - 1] + [ids[|ids| - 1]];
    }
  }

  lemma {:induction false} NormalSizesKeepPanels(column: Column)
    ensures WithNormalSizes(column).panelIds == column.panelIds
    ensures WithNormalSizes(column).id == column.id && WithNormalSizes(column).width == column.width
    ensures Distinct(column.panelIds) ==> Sized(WithNormalSizes(column))
  {
    hide Sized, NormalizedColumn;
    NormalizedKeepsPanels(column.(sizes := Raised(column.panelIds, column.sizes.values)));
    if Distinct(column.panelIds) {
      NormalizedIsSized(column.(sizes := Raised(column.panelIds, column.sizes.values)));
    }
  }

  lemma {:induction false} DistinctConcatenation(a: seq<PanelId>, b: seq<PanelId>)
    requires Distinct(a) && Distinct(b) && forall x :: x in b ==> x !in a
    ensures Distinct(a + b)
  {
    forall i, j | 0 <= i < j < |a + b|
      ensures (a + b)[i] != (a + b)[j]
    {
      if i < |a| <= j {
        assert (a + b)[j] in b;
      }
    }
  }

  lemma {:induction false} NormalColumnsPanels(raws: seq<RawColumn>, count: nat, known: set<PanelId>)
    requires count > 0
    ensures Distinct(ColumnPanels(NormalColumns(raws, count, known)))
    ensures forall id :: id in ColumnPanels(NormalColumns(raws, count, known)) ==> id in known
  {
    hide WithNormalSizes, TakeNew, Distinct;
    if raws == [] {
      assert Distinct<PanelId>([]) by { NothingIsDistinct(); }
    } else {
      var front := NormalColumns(raws[..|raws| - 1], count, known);
      var raw := raws[|raws| - 1];
      NormalColumnsPanels(raws[..|raws| - 1], count, known);
      var ids := TakeNew(raw.panelIds, known, ColumnPanels(front));
      TakeNewElements(raw.panelIds, known, ColumnPanels(front));
      NormalColumnKeepsIds(raw, |front|, count, ids);
      DistinctConcatenation(ColumnPanels(front), ids);
      assert NormalColumns(raws, count, known)[..|raws| - 1] == front;
    }
  }

  lemma {:induction false} NothingIsDistinct()
    ensures Distinct<PanelId>([])
  {
  }

  lemma {:induction false} NormalColumnKeepsIds(raw: RawColumn, index: nat, count: nat, ids: seq<PanelId>)
    requires count > 0
    ensures NormalColumn(raw, index, count, ids).panelIds == ids
  {
    hide WithNormalSizes;
    NormalSizesKeepPanels(Column(raw.id.GetOr(Numbered(index + 1)), raw.width.GetOr(100.0 / count as real), ids,
                                 Record([], raw.sizes)));
  }

  lemma {:induction false} PaddedPanels(columns: seq<Column>, count: nat)
    requires count > 0
    ensures ColumnPanels(Padded(columns, count)) == ColumnPanels(columns)
    decreases count - |columns|
  {
    if |columns| < count {
      var next := columns + [Column(Numbered(|columns| + 1), 100.0 / count as real, [], Empty())];
      PaddedPanels(next, count);
      assert next[..|columns|] == columns;
    }
  }

  lemma {:induction false} AdoptedPlacement(columns: seq<Column>, orphans: seq<PanelId>)
    requires columns != []
    ensures PlacedIn(Adopted(columns, orphans)) == PlacedIn(columns) + multiset(orphans)
  {
    hide PlacedIn;
    PlacedInUpdate(columns, 0, columns[0].(panelIds := columns[0].panelIds + orphans));
    Cancel(PlacedIn(Adopted(columns, orphans)), PlacedIn(columns) + multiset(orphans), multiset(columns[0].panelIds));
  }

  lemma {:induction false} ResizedKeepsPanels(columns: seq<Column>)
    ensures PlacedIn(Rewidened(Resized(columns))) == PlacedIn(columns)
    ensures (forall i :: 0 <= i < |columns| ==> Distinct(columns[i].panelIds)) ==> SizesOk(Rewidened(Resized(columns)))
  {
    hide PlacedIn, Sized, WithNormalSizes, Share, BroadTotal;
    forall i | 0 <= i < |columns|
      ensures Resized(columns)[i].panelIds == columns[i].panelIds
      ensures Distinct(columns[i].panelIds) ==> Sized(Resized(columns)[i])
    {
      NormalSizesKeepPanels(columns[i]);
    }
    SamePlacement(columns, Resized(columns));
    WidthsKeepParts(Resized(columns), Rewidened(Resized(columns)));
  }

  lemma {:induction false} SameElementsSameCounts(a: seq<PanelId>, b: seq<PanelId>)
    requires Distinct(a) && Distinct(b) && forall x :: x in a <==> x in b
    ensures multiset(a) == multiset(b)
  {
    DistinctByCount(a);
    DistinctByCount(b);
    forall x
      ensures multiset(a)[x] == multiset(b)[x]
    {
      assert x in a <==> x in multiset(a);
      assert x in b <==> x in multiset(b);
    }
  }

  /** Column panels, floating panels and orphans are the instances, each once. */
  lemma {:induction false} EveryPanelOnce(docked: seq<PanelId>, rawFloating: seq<PanelId>, keys: seq<PanelId>)
    requires Distinct(keys) && Distinct(docked) && forall x :: x in docked ==> x in keys
    ensures var known := set id | id in keys;
      var floating := TakeNew(rawFloating, known, docked);
      multiset(docked) + multiset(floating) + multiset(TakeNew(keys, known, docked + floating)) == multiset(keys)
  {
    hide TakeNew, Distinct;
    var known := set id | id in keys;
    var floating := TakeNew(rawFloating, known, docked);
    var orphans := TakeNew(keys, known, docked + floating);
    TakeNewElements(rawFloating, known, docked);
    TakeNewElements(keys, known, docked + floating);
    DistinctConcatenation(docked, floating);
    DistinctConcatenation(docked + floating, orphans);
    SameElementsSameCounts(docked + floating + orphans, keys);
  }

  lemma {:induction false} PlaceAllPlaces(raw: RawDocument, keys: seq<PanelId>, count: nat)
    requires raw.RawDocument? && count > 0 && Distinct(keys)
    ensures var p := PlaceAll(raw, keys, count);
      && PlacedIn(p.columns) + multiset(p.floating) == multiset(keys)
      && SizesOk(p.columns)
  {
    hide PlacedIn, TakeNew, NormalColumns, Padded, Distinct, Sized, Rewidened, Resized, Adopted, ColumnPanels;
    var known := set id | id in keys;
    var raws := if |raw.columns| <= count then raw.columns else raw.columns[..count];
    var columns := Padded(NormalColumns(raws, count, known), count);
    NormalColumnsPanels(raws, count, known);
    PaddedPanels(NormalColumns(raws, count, known), count);
    ColumnPanelsArePlaced(columns);
    var floating := TakeNew(raw.floating, known, ColumnPanels(columns));
    var orphans := TakeNew(keys, known, ColumnPanels(columns) + floating);
    EveryPanelOnce(ColumnPanels(columns), raw.floating, keys);
    AdoptedPlacement(columns, orphans);
    var adopted := Adopted(columns, orphans);
    assert PlacedIn(adopted) <= multiset(keys);
    forall i | 0 <= i < |adopted|
      ensures Distinct(adopted[i].panelIds)
    {
      ColumnWithin(adopted, i);
      DistinctWithin(adopted[i].panelIds, keys);
    }
    ResizedKeepsPanels(adopted);
  }

  lemma {:induction false} SettledInstances(instances: Record<PanelId, Instance>, floating: seq<PanelId>)
    requires InstancesOk(instances)
    ensures InstancesOk(Settled(instances, floating))
    ensures RectsOk(Settled(instances, floating).values, floating)
    ensures Settled(instances, floating).keys == instances.keys
    ensures Settled(instances, floating).values.Keys == instances.values.Keys
  {
    hide ClampFloatingRect, Clamped;
    forall id | id in instances.values
      ensures RectOk(Settled(instances, floating).values[id].rect, id in floating)
    {
      ClampGivesClamped(instances.values[id].rect.GetOr(DEFAULT_RECT));
    }
  }

  lemma {:induction false} NormalOwnerIsOk(requested: Option<PanelId>, instances: Record<PanelId, Instance>)
    requires instances.Valid()
    ensures OwnerOk(NormalOwner(requested, instances), instances.values)
  {
    OwnerFound(instances);
  }

  lemma {:induction false} AssembledIsCore(raw: RawDocument, instances: Record<PanelId, Instance>)
    requires raw.RawDocument? && InstancesOk(instances)
    ensures Core(Assemble(raw, instances))
  {
    hide PlaceAll, Settled, Sized, PlacedIn, NormalOwner, Take, OwnerOk, RectsOk;
    var placed := PlaceAll(raw, instances.keys, CountOf(raw));
    PlaceAllPlaces(raw, instances.keys, CountOf(raw));
    SettledInstances(instances, placed.floating);
    NormalOwnerIsOk(raw.owner, Settled(instances, placed.floating));
  }

  /** Whatever was stored, normalising it gives a document that satisfies the
      core invariant, so the repository's own check finds no error in it. */
  lemma {:induction false} NormalizedIsCore(raw: RawDocument, configure: Configurer, allocate: Allocator)
    requires raw.RawDocument? ==> raw.instances.Valid()
    requires KeepsKind(configure) && NormalizeDocument(raw, configure, allocate).Some?
    ensures Core(NormalizeDocument(raw, configure, allocate).value)
    ensures InvariantErrors(NormalizeDocument(raw, configure, allocate).value) == []
  {
    hide Assemble, Preset, Core, InvariantErrors, DefinitionOf, NormalInstances;
    var d := NormalizeDocument(raw, configure, allocate).value;
    if raw.RawDocument? {
      var n := Within(|raw.instances.keys|, MAX_PANEL_INSTANCES);
      NormalInstancesAreKept(raw.instances, n, configure);
      if NormalInstances(raw.instances, n, configure).value.keys != [] {
        AssembledIsCore(raw, NormalInstances(raw.instances, n, configure).value);
      }
    }
    if Preset(DefinitionOf(Classic), allocate) == Some(d) {
      PresetsSatisfyInvariant(Classic, allocate);
      InvIsCore(d);
    }
    CoreHasNoErrors(d);
  }

  lemma {:induction false} InvIsCore(d: Document)
    requires Inv(d)
    ensures Core(d)
  {
  }

  // --- What normalising keeps ------------------------------------------------------------------------

  function RawOfRect(rect: Option<Rect>): Option<RawRect> {
    match rect
    case Some(r) => Some(RawRect(Some(r.x), Some(r.y), Some(r.width), Some(r.height)))
    case None => None
  }

  function RawOfInstance(panel: Instance): RawInstance {
    RawInstance(Some(panel.kind), Some(panel.title), panel.minimized, RawOfRect(panel.rect), Some(panel.config))
  }

  function RawOfColumn(column: Column): RawColumn {
    RawColumn(Some(column.id), Some(column.width), column.panelIds, column.sizes.values)
  }

  function RawOfColumns(columns: seq<Column>): (raws: seq<RawColumn>)
    ensures |raws| == |columns|
  {
    if columns == [] then []
    else RawOfColumns(columns[..|columns| - 1]) + [RawOfColumn(columns[|columns| - 1])]
  }

  /** The document as it is stored. */
  function Saved(d: Document): (raw: RawDocument)
    ensures raw.RawDocument?
    ensures d.instances.Valid() ==> raw.instances.Valid()
  {
    RawDocument(Some(d.name), Some(d.columnCount), RawOfColumns(d.columns), d.floating,
                Record(d.instances.keys, map id | id in d.instances.values :: RawOfInstance(d.instances.values[id])),
                d.focused, d.owner, Some(d.nextInstance), Some(d.nextColumn))
  }

  /** What a stored panel keeps: its kind, its state, and its rectangle, clamped. */
  predicate ReadBack(panel: Instance, stored: Instance) {
    && panel.kind == stored.kind && panel.minimized == stored.minimized
    && panel.rect == match stored.rect case Some(rect) => Some(ClampFloatingRect(rect)) case None => None
  }

  lemma {:induction false} SavedInstance(id: PanelId, stored: Instance, config: Config)
    ensures ReadBack(NormalInstance(id, RawOfInstance(stored), stored.kind, config), stored)
  {
    hide NormalTitle;
  }

  lemma {:induction false} NextInstance(raws: Record<PanelId, RawInstance>, n: nat, configure: Configurer) returns (config: Config)
    requires raws.Valid() && n < |raws.keys| && raws.values[raws.keys[n]].kind.Some?
    requires NormalInstances(raws, n + 1, configure).Some?
    ensures NormalInstances(raws, n, configure).Some?
    ensures var id := raws.keys[n];
      NormalInstances(raws, n + 1, configure).value
      == NormalInstances(raws, n, configure).value.Set(id, NormalInstance(id, raws.values[id], raws.values[id].kind.value, config))
  {
    hide NormalInstance, InstanceList;
    var before := NormalInstances(raws, n, configure).value;
    var raw := raws.values[raws.keys[n]];
    config := configure(raw.kind.value, raws.keys[n], raw.settings, InstanceList(before)).value;
  }

  /** The stored panels, read back in their order. */
  ghost predicate AllReadBack(r: Record<PanelId, Instance>, stored: Record<PanelId, Instance>, n: nat)
    requires n <= |stored.keys|
  {
    && r.keys == stored.keys[..n]
    && forall id :: id in r.values ==> id in stored.values && ReadBack(r.values[id], stored.values[id])
  }

  lemma {:induction false} OneMoreReadBack(r: Record<PanelId, Instance>, stored: Record<PanelId, Instance>, n: nat, panel: Instance)
    requires n < |stored.keys| && stored.Valid() && r.Valid() && AllReadBack(r, stored, n)
    requires ReadBack(panel, stored.values[stored.keys[n]])
    ensures AllReadBack(r.Set(stored.keys[n], panel), stored, n + 1)
  {
    hide ReadBack;
    assert stored.keys[n] !in r.keys;
    assert stored.keys[..n + 1] == stored.keys[..n] + [stored.keys[n]];
  }

  /** `raws` is `stored`, as stored. */
  ghost predicate Stores(raws: Record<PanelId, RawInstance>, stored: Record<PanelId, Instance>) {
    && raws.Valid() && stored.Valid() && raws.keys == stored.keys
    && forall id :: id in stored.values ==> id in raws.values && raws.values[id] == RawOfInstance(stored.values[id])
  }

  lemma {:induction false} NoInstances(raws: Record<PanelId, RawInstance>, stored: Record<PanelId, Instance>, configure: Configurer)
    requires raws.Valid()
    ensures NormalInstances(raws, 0, configure) == Some(Empty()) && AllReadBack(Empty(), stored, 0)
  {
  }

  lemma {:induction false} StoredEntry(raws: Record<PanelId, RawInstance>, stored: Record<PanelId, Instance>, n: nat)
    requires Stores(raws, stored) && n < |stored.keys|
    ensures var id := stored.keys[n];
      raws.keys[n] == id && id in stored.values && id in raws.values && raws.values[id] == RawOfInstance(stored.values[id])
  {
  }

  lemma {:induction false} SavedInstances(raws: Record<PanelId, RawInstance>, stored: Record<PanelId, Instance>, n: nat,
                                          configure: Configurer)
    requires Stores(raws, stored) && n <= |stored.keys| && NormalInstances(raws, n, configure).Some?
    ensures AllReadBack(NormalInstances(raws, n, configure).value, stored, n)
  {
    hide NormalInstances, NormalInstance, ReadBack, AllReadBack;
    if n == 0 {
      NoInstances(raws, stored, configure);
    } else {
      StoredEntry(raws, stored, n - 1);
      var id := stored.keys[n - 1];
      var config := NextInstance(raws, n - 1, configure);
      SavedInstances(raws, stored, n - 1, configure);
      SavedInstance(id, stored.values[id], config);
      OneMoreReadBack(NormalInstances(raws, n - 1, configure).value, stored, n - 1,
                      NormalInstance(id, RawOfInstance(stored.values[id]), stored.values[id].kind, config));
    }
  }

  lemma {:induction false} TakeNewKeepsAll(ids: seq<PanelId>, known: set<PanelId>, seen: seq<PanelId>)
    requires Distinct(ids) && forall id :: id in ids ==> id in known && id !in seen
    ensures TakeNew(ids, known, seen) == ids
  {
    if ids != [] {
      var last := |ids| - 1;
      TakeNewKeepsAll(ids[..last], known, seen);
      assert ids[last] !in ids[..last];
      assert ids == ids[..last] + [ids[last]];
    }
  }

  lemma {:induction false} TakeNewKeepsNone(ids: seq<PanelId>, known: set<PanelId>, seen: seq<PanelId>)
    requires forall id :: id in ids ==> id in seen
    ensures TakeNew(ids, known, seen) == []
  {
    if ids != [] {
      TakeNewKeepsNone(ids[..|ids| - 1], known, seen);
    }
  }

  lemma {:induction false} SameSizesNormalize(column: Column, other: Column)
    requires other == column.(sizes := other.sizes) && other.sizes.values == column.sizes.values
    ensures WithNormalSizes(other) == WithNormalSizes(column)
  {
  }

  lemma {:induction false} SavedColumnReads(column: Column, index: nat, count: nat, known: set<PanelId>, seen: seq<PanelId>)
    requires count > 0
    requires Distinct(column.panelIds) && forall id :: id in column.panelIds ==> id in known && id !in seen
    ensures NormalColumn(RawOfColumn(column), index, count, TakeNew(column.panelIds, known, seen))
            == WithNormalSizes(column)
  {
    hide WithNormalSizes, Distinct, TakeNew;
    TakeNewKeepsAll(column.panelIds, known, seen);
    SameSizesNormalize(column, column.(sizes := Record([], column.sizes.values)));
  }

  lemma {:induction false} ResizedPanels(columns: seq<Column>)
    ensures ColumnPanels(Resized(columns)) == ColumnPanels(columns)
  {
    hide WithNormalSizes;
    if columns != [] {
      var front := columns[..|columns| - 1];
      ResizedPanels(front);
      NormalSizesKeepPanels(columns[|front|]);
      assert Resized(columns)[..|front|] == Resized(front);
    }
  }

  lemma {:induction false} LastColumn(columns: seq<Column>)
    requires columns != []
    ensures ColumnPanels(columns) == ColumnPanels(columns[..|columns| - 1]) + columns[|columns| - 1].panelIds
    ensures forall id :: id in ColumnPanels(columns[..|columns| - 1]) ==> id in ColumnPanels(columns)
    ensures forall id :: id in columns[|columns| - 1].panelIds ==> id in ColumnPanels(columns)
  {
  }

  lemma {:induction false} SavedColumns(columns: seq<Column>, count: nat, known: set<PanelId>)
    requires count > 0
    requires Distinct(ColumnPanels(columns)) && forall id :: id in ColumnPanels(columns) ==> id in known
    ensures NormalColumns(RawOfColumns(columns), count, known) == Resized(columns)
  {
    hide NormalColumn, Distinct, TakeNew, ColumnPanels, WithNormalSizes;
    if columns != [] {
      var front, column := columns[..|columns| - 1], columns[|columns| - 1];
      LastColumn(columns);
      DistinctParts(ColumnPanels(front), column.panelIds);
      SavedColumns(front, count, known);
      assert RawOfColumns(columns)[..|front|] == RawOfColumns(front);
      SavedColumnReads(column, |front|, count, known, ColumnPanels(front));
      ResizedPanels(front);
      assert Resized(columns) == Resized(front) + [WithNormalSizes(column)];
    }
  }

  lemma {:induction false} DistinctParts(a: seq<PanelId>, b: seq<PanelId>)
    requires Distinct(a + b)
    ensures Distinct(a) && Distinct(b) && forall x :: x in b ==> x !in a
  {
    forall i, j | 0 <= i < j < |a|
      ensures a[i] != a[j]
    {
      assert (a + b)[i] != (a + b)[j];
    }
    DistinctTail(a, b);
    forall i, j | 0 <= i < |a| && 0 <= j < |b|
      ensures a[i] != b[j]
    {
      assert (a + b)[i] != (a + b)[|a| + j];
    }
  }

  lemma {:induction false} NothingAdopted(columns: seq<Column>)
    requires columns != []
    ensures Adopted(columns, []) == columns
  {
    assert columns[0].panelIds + [] == columns[0].panelIds;
  }

  /** Docked and floating panels are distinct, and together are the instances. */
  lemma {:induction false} PlacedPanels(d: Document)
    requires d.instances.Valid() && PlacementOk(d)
    ensures Distinct(ColumnPanels(d.columns)) && Distinct(d.floating)
    ensures forall id :: id in d.floating ==> id !in ColumnPanels(d.columns)
    ensures forall id :: id in ColumnPanels(d.columns) || id in d.floating <==> id in d.instances.keys
  {
    hide ColumnPanels, PlacedIn, Distinct;
    var docked := ColumnPanels(d.columns);
    PlacementsAreInstances(d);
    DistinctParts(docked, d.floating);
    forall id
      ensures id in docked || id in d.floating <==> id in d.instances.keys
    {
      assert id in docked + d.floating <==> id in multiset(docked + d.floating);
      assert id in d.instances.keys <==> id in multiset(d.instances.keys);
    }
  }

  /** What a saved layout's columns become. */
  function Rescaled(columns: seq<Column>): (rescaled: seq<Column>)
    ensures |rescaled| == |columns|
  {
    Rewidened(Resized(Resized(columns)))
  }

  lemma {:induction false} SavedPlacement(d: Document)
    requires Core(d)
    ensures PlaceAll(Saved(d), d.instances.keys, d.columnCount) == Placement(Rescaled(d.columns), d.floating)
  {
    hide TakeNew, Distinct, Sized, Resized, Rewidened, Adopted, ColumnPanels, RawOfColumns,
      NormalColumns, PlacedIn;
    var known := set id | id in d.instances.keys;
    var docked := ColumnPanels(d.columns);
    PlacedPanels(d);
    SavedColumns(d.columns, d.columnCount, known);
    TakeNewKeepsAll(d.floating, known, docked);
    TakeNewKeepsNone(d.instances.keys, known, docked + d.floating);
    ResizedPanels(d.columns);
    NothingAdopted(Resized(d.columns));
  }

  lemma {:induction false} ClampedStays(rect: Rect)
    requires Clamped(rect)
    ensures ClampFloatingRect(rect) == rect
  {
  }

  /** The same panels, kinds and rectangles, minimised alike. */
  predicate SamePanels(a: Record<PanelId, Instance>, b: Record<PanelId, Instance>) {
    && a.keys == b.keys && a.values.Keys == b.values.Keys
    && forall id :: id in a.values ==>
         && a.values[id].kind == b.values[id].kind && a.values[id].minimized == b.values[id].minimized
         && a.values[id].rect == b.values[id].rect
  }

  lemma {:induction false} SavedPanels(d: Document, configure: Configurer)
    requires Core(d)
    requires NormalInstances(Saved(d).instances, |d.instances.keys|, configure).Some?
    ensures var r := NormalInstances(Saved(d).instances, |d.instances.keys|, configure).value;
      r.keys == d.instances.keys && SamePanels(Settled(r, d.floating), d.instances)
  {
    hide ClampFloatingRect, Clamped, NormalInstances, Sized, PlacedIn;
    SavedInstances(Saved(d).instances, d.instances, |d.instances.keys|, configure);
    assert d.instances.keys[..|d.instances.keys|] == d.instances.keys;
    var r := NormalInstances(Saved(d).instances, |d.instances.keys|, configure).value;
    forall id | id in r.values
      ensures SettledRect(r.values[id].rect, id in d.floating) == d.At(id).rect
    {
      assert RectOk(d.At(id).rect, id in d.floating);
      if d.At(id).rect.Some? {
        ClampedStays(d.At(id).rect.value);
      }
    }
  }

  lemma {:induction false} OwnerStays(d: Document, instances: Record<PanelId, Instance>)
    requires OwnerOk(d.owner, d.instances.values) && SamePanels(instances, d.instances) && instances.Valid()
    ensures NormalOwner(d.owner, instances) == d.owner
  {
    if d.owner.None? {
      var found := FirstOfKind(instances.keys, instances.values, Terminal);
      if found.Some? {
        assert IsTerminal(d.instances.values, found.value);
      }
    }
  }

  lemma {:induction false} SettledIsValid(instances: Record<PanelId, Instance>, floating: seq<PanelId>)
    requires instances.Valid()
    ensures Settled(instances, floating).Valid()
    ensures Settled(instances, floating).values.Keys == instances.values.Keys
  {
  }

  // --- Restoring what a run has saved --------------------------------------------------------------------

  lemma {:induction false} SavedColumnIds(columns: seq<Column>, count: nat, known: set<PanelId>)
    requires count > 0
    ensures forall i :: 0 <= i < |columns| ==> NormalColumns(RawOfColumns(columns), count, known)[i].id == columns[i].id
  {
    hide WithNormalSizes, TakeNew;
    if columns != [] {
      var last := |columns| - 1;
      SavedColumnIds(columns[..last], count, known);
      assert RawOfColumns(columns)[..last] == RawOfColumns(columns[..last]);
      var front := NormalColumns(RawOfColumns(columns[..last]), count, known);
      var raw := RawOfColumn(columns[last]);
      var ids := TakeNew(raw.panelIds, known, ColumnPanels(front));
      NormalSizesKeepPanels(Column(columns[last].id, columns[last].width, ids, Record([], raw.sizes)));
    }
  }

  lemma {:induction false} ResizedIds(columns: seq<Column>)
    ensures forall i :: 0 <= i < |columns| ==> Rewidened(Resized(columns))[i].id == columns[i].id
  {
    hide WithNormalSizes, Share;
    forall i | 0 <= i < |columns|
      ensures Resized(columns)[i].id == columns[i].id
    {
      NormalSizesKeepPanels(columns[i]);
    }
  }

  lemma {:induction false} SavedPlacementIds(d: Document, keys: seq<PanelId>)
    requires ColumnCountOk(d)
    ensures var placed := PlaceAll(Saved(d), keys, d.columnCount).columns;
      |placed| == |d.columns| && forall i :: 0 <= i < |d.columns| ==> placed[i].id == d.columns[i].id
  {
    hide TakeNew, Resized, Rewidened, ColumnPanels, NormalColumns, RawOfColumns;
    var known := set id | id in keys;
    SavedColumnIds(d.columns, d.columnCount, known);
    var columns := NormalColumns(RawOfColumns(d.columns), d.columnCount, known);
    var floating := TakeNew(d.floating, known, ColumnPanels(columns));
    var orphans := TakeNew(keys, known, ColumnPanels(columns) + floating);
    ResizedIds(Adopted(columns, orphans));
  }

  lemma {:induction false} NormalKeysAreRaw(raws: Record<PanelId, RawInstance>, n: nat, configure: Configurer)
    requires raws.Valid() && n <= |raws.keys| && NormalInstances(raws, n, configure).Some?
    ensures forall id :: id in NormalInstances(raws, n, configure).value.values ==> id in raws.values
  {
    hide InstanceList, NormalInstance;
    if n > 0 {
      NormalKeysAreRaw(raws, n - 1, configure);
    }
  }

  /** Restoring a layout saved in a run gives the full invariant again. */
  lemma {:induction false} RestoredIsInv(d: Document, configure: Configurer, allocate: Allocator)
    requires Inv(d) && KeepsKind(configure)
    requires NormalizeDocument(Saved(d), configure, allocate).Some?
    ensures Inv(NormalizeDocument(Saved(d), configure, allocate).value)
  {
    hide PlaceAll, Sized, PlacedIn, NormalOwner, Take, NormalInstances, DefinitionOf, Preset, SizesOk, RectsOk, OwnerOk;
    var n := Within(|Saved(d).instances.keys|, MAX_PANEL_INSTANCES);
    var instances := NormalInstances(Saved(d).instances, n, configure).value;
    if instances.keys == [] {
      PresetsSatisfyInvariant(Classic, allocate);
    } else {
      NormalizedIsCore(Saved(d), configure, allocate);
      NormalKeysAreRaw(Saved(d).instances, n, configure);
      SavedPlacementIds(d, instances.keys);
      SettledIsValid(instances, PlaceAll(Saved(d), instances.keys, d.columnCount).floating);
    }
  }
}
