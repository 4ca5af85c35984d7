/** The panel layout document and the invariant its reducers keep. */
module PanelTypes {
  import opened Outcomes
  import opened Records

  const MAX_PANEL_COLUMNS := 4
  const MAX_PANEL_INSTANCES := 32
  const MAX_SAVED_PANEL_VIEWS := 20

  datatype Kind =
    | Terminal | Code | Registers | Memory | Debugger | HardwareDisplay
    | HardwareDigitalIo | HardwareInterrupts | Graphics | Sound | Help

  /** An identifier the layout made for a panel, or any other text. */
  datatype PanelId = Generated(kind: Kind, sequence: int) | Named(text: string)

  datatype ColumnId = Numbered(number: int) | Called(text: string)

  datatype DeviceId = DeviceOf(panel: PanelId) | Device(text: string)

  datatype Rect = Rect(x: real, y: real, width: real, height: real)

  /** Settings that no reducer looks into are kept as text. */
  datatype Config =
    | Display(device: DeviceId, displayBase: int)
    | DigitalIo(device: DeviceId, ledAddress: int, switchAddress: int, buttonAddress: int, bitLabels: seq<string>)
    | Plain(plainKind: Kind, settings: string)
  {
    function Kind(): Kind {
      match this
      case Display(_, _) => HardwareDisplay
      case DigitalIo(_, _, _, _, _) => HardwareDigitalIo
      case Plain(kind, _) => kind
    }
  }

  datatype Instance = Instance(
    id: PanelId, kind: Kind, title: string, minimized: bool, rect: Option<Rect>, config: Config)

  datatype Column = Column(id: ColumnId, width: real, panelIds: seq<PanelId>, sizes: Record<PanelId, real>)

  datatype Document = Document(
    name: string,
    columnCount: int,
    columns: seq<Column>,
    floating: seq<PanelId>,
    instances: Record<PanelId, Instance>,
    focused: Option<PanelId>,
    owner: Option<PanelId>,
    nextInstance: int,
    nextColumn: int)
  {
    predicate Has(id: PanelId) {
      id in instances.values
    }

    function At(id: PanelId): Instance
      requires Has(id)
    {
      instances.values[id]
    }
  }

  // --- Floating rectangles ------------------------------------------------------------

  function Max(a: real, b: real): real {
    if a >= b then a else b
  }

  function ClampFloatingRect(rect: Rect): Rect {
    Rect(Max(0.0, rect.x), Max(0.0, rect.y), Max(280.0, rect.width), Max(180.0, rect.height))
  }

  const DEFAULT_RECT := Rect(32.0, 32.0, 520.0, 420.0)

  predicate Clamped(rect: Rect) {
    rect.x >= 0.0 && rect.y >= 0.0 && rect.width >= 280.0 && rect.height >= 180.0
  }

  // --- Placements -----------------------------------------------------------------------

  /** How often each panel occurs in the columns. */
  function PlacedIn(columns: seq<Column>): multiset<PanelId> {
    if columns == [] then multiset{}
    else PlacedIn(columns[..|columns| - 1]) + multiset(columns[|columns| - 1].panelIds)
  }

  /** The columns' panels, left to right and top to bottom. */
  function ColumnPanels(columns: seq<Column>): seq<PanelId> {
    if columns == [] then []
    else ColumnPanels(columns[..|columns| - 1]) + columns[|columns| - 1].panelIds
  }

  function Placed(d: Document): multiset<PanelId> {
    PlacedIn(d.columns) + multiset(d.floating)
  }

  function SizeTotal(sizes: Record<PanelId, real>): real
    requires forall k :: k in sizes.keys ==> k in sizes.values
  {
    TotalOf(sizes.keys, sizes.values)
  }

  function TotalOf(keys: seq<PanelId>, values: map<PanelId, real>): real
    requires forall k :: k in keys ==> k in values
  {
    if keys == [] then 0.0
    else TotalOf(keys[..|keys| - 1], values) + values[keys[|keys| - 1]]
  }

  // --- The invariant ----------------------------------------------------------------------

  predicate ColumnCountOk(d: Document) {
    d.columnCount == |d.columns| && 1 <= |d.columns| <= MAX_PANEL_COLUMNS
  }

  /** Panels are kept under their own identifiers, with settings of their kind. */
  ghost predicate InstancesOk(instances: Record<PanelId, Instance>) {
    && instances.Valid()
    && |instances.keys| <= MAX_PANEL_INSTANCES
    && forall id :: id in instances.values ==> KeptUnder(instances.values[id], id)
  }

  predicate KeptUnder(panel: Instance, id: PanelId) {
    panel.id == id && panel.config.Kind() == panel.kind
  }

  /** Every panel is in one place: once in one column, or once in the floating list. */
  predicate PlacementOk(d: Document) {
    Placed(d) == multiset(d.instances.keys)
  }

  /** The sizes are those of the column's panels, positive, and make up 100. */
  ghost predicate Sized(column: Column) {
    && column.sizes.keys == column.panelIds
    && column.sizes.Valid()
    && (forall id :: id in column.sizes.values ==> column.sizes.values[id] > 0.0)
    && (column.panelIds != [] ==> SizeTotal(column.sizes) == 100.0)
  }

  ghost predicate SizesOk(columns: seq<Column>) {
    forall i :: 0 <= i < |columns| ==> Sized(columns[i])
  }

  /** Exactly the floating panels have a rectangle, within its bounds. */
  ghost predicate RectsOk(instances: map<PanelId, Instance>, floating: seq<PanelId>) {
    forall id :: id in instances ==> RectOk(instances[id].rect, id in floating)
  }

  predicate RectOk(rect: Option<Rect>, floats: bool) {
    (rect.Some? <==> floats) && (rect.Some? ==> Clamped(rect.value))
  }

  predicate FocusOk(d: Document) {
    d.focused.Some? ==> d.Has(d.focused.value)
  }

  predicate IsTerminal(instances: map<PanelId, Instance>, id: PanelId) {
    id in instances && instances[id].kind == Terminal
  }

  /** There is a terminal owner exactly when there is a terminal, and it is one. */
  ghost predicate OwnerOk(owner: Option<PanelId>, instances: map<PanelId, Instance>) {
    && (owner.Some? ==> IsTerminal(instances, owner.value))
    && (owner.None? ==> forall id :: !IsTerminal(instances, id))
  }

  /** What every layout satisfies, wherever it comes from. */
  ghost predicate Core(d: Document) {
    && ColumnCountOk(d)
    && InstancesOk(d.instances)
    && PlacementOk(d)
    && SizesOk(d.columns)
    && RectsOk(d.instances.values, d.floating)
    && FocusOk(d)
    && OwnerOk(d.owner, d.instances.values)
  }

  /** The sequence numbers are at least those of a new layout with as many columns. */
  predicate Counted(d: Document) {
    d.nextInstance >= 1 && d.nextColumn > |d.columns|
  }

  /** Identifiers made from now on will be new. */
  ghost predicate Fresh(d: Document) {
    && Counted(d)
    && (forall id :: id in d.instances.values && id.Generated? ==> id.sequence < d.nextInstance)
    && (forall i :: 0 <= i < |d.columns| && d.columns[i].id.Numbered? ==> d.columns[i].id.number < d.nextColumn)
    && (forall i, j :: 0 <= i < j < |d.columns| ==> d.columns[i].id != d.columns[j].id)
  }

  /** What every layout grown from a preset satisfies. */
  ghost predicate Inv(d: Document) {
    Core(d) && Fresh(d)
  }

  // --- The repository's own check -----------------------------------------------------------

  datatype LayoutError =
    | InvalidColumnCount
    | DuplicatePlacement
    | NotPlacedOnce
    | MissingInstance
    | InvalidSizes(column: ColumnId)
    | InvalidOwner
    | DuplicateDevices

  /** The configured hardware devices, the first of each identifier. */
  function Devices(instances: seq<Instance>): seq<Config> {
    if instances == [] then []
    else
      var before := Devices(instances[..|instances| - 1]);
      var config := instances[|instances| - 1].config;
      if !config.Plain? && !Known(before, config.device) then before + [config] else before
  }

  predicate Known(devices: seq<Config>, id: DeviceId) {
    exists k :: 0 <= k < |devices| && !devices[k].Plain? && devices[k].device == id
  }

  function InstanceList(instances: Record<PanelId, Instance>): seq<Instance>
    requires forall k :: k in instances.keys ==> k in instances.values
  {
    seq(|instances.keys|, i requires 0 <= i < |instances.keys| => instances.values[instances.keys[i]])
  }

  predicate SizesInvalid(column: Column)
    requires column.sizes.Valid()
  {
    || |column.sizes.keys| != |column.panelIds|
    || (exists k :: 0 <= k < |column.panelIds| && column.panelIds[k] !in column.sizes.keys)
    || (exists k :: 0 <= k < |column.sizes.keys| && column.sizes.values[column.sizes.keys[k]] <= 0.0)
    || (column.panelIds != [] && !(-0.1 <= SizeTotal(column.sizes) - 100.0 <= 0.1))
  }

  function SizeErrors(columns: seq<Column>): seq<LayoutError>
    requires forall i :: 0 <= i < |columns| ==> columns[i].sizes.Valid()
  {
    if columns == [] then []
    else
      SizeErrors(columns[..|columns| - 1])
      + if SizesInvalid(columns[|columns| - 1]) then [InvalidSizes(columns[|columns| - 1].id)] else []
  }

  function If(condition: bool, error: LayoutError): seq<LayoutError> {
    if condition then [error] else []
  }

  predicate DistinctDevices(devices: seq<Config>) {
    forall i, j :: 0 <= i < j < |devices| ==>
      !devices[i].Plain? && !devices[j].Plain? && devices[i].device != devices[j].device
  }

  ghost function InvariantErrors(d: Document): seq<LayoutError>
    requires d.instances.Valid() && forall i :: 0 <= i < |d.columns| ==> d.columns[i].sizes.Valid()
  {
    var placements := ColumnPanels(d.columns) + d.floating;
    If(d.columnCount != |d.columns| || d.columnCount < 1 || d.columnCount > 4, InvalidColumnCount)
    + If(!Distinct(placements), DuplicatePlacement)
    + If(|placements| != |d.instances.keys|, NotPlacedOnce)
    + If(exists k :: 0 <= k < |placements| && !d.Has(placements[k]), MissingInstance)
    + SizeErrors(d.columns)
    + If(d.owner.Some? && !IsTerminal(d.instances.values, d.owner.value), InvalidOwner)
    + If(!DistinctDevices(Devices(InstanceList(d.instances))), DuplicateDevices)
  }

  lemma {:induction false} ColumnPanelsArePlaced(columns: seq<Column>)
    ensures multiset(ColumnPanels(columns)) == PlacedIn(columns)
  {
    if columns != [] {
      ColumnPanelsArePlaced(columns[..|columns| - 1]);
    }
  }

  /** Mirrored bindings never give two devices one identifier, in any document. */
  lemma {:induction false} DevicesAreDistinct(instances: seq<Instance>)
    ensures forall k :: 0 <= k < |Devices(instances)| ==> !Devices(instances)[k].Plain?
    ensures DistinctDevices(Devices(instances))
  {
    if instances != [] {
      DevicesAreDistinct(instances[..|instances| - 1]);
    }
  }

  lemma {:induction false} SizedHasNoError(columns: seq<Column>)
    requires SizesOk(columns)
    ensures SizeErrors(columns) == []
  {
    if columns != [] {
      SizedHasNoError(columns[..|columns| - 1]);
      assert Sized(columns[|columns| - 1]);
    }
  }

  lemma {:induction false} PlacementsAreInstances(d: Document)
    requires d.instances.Valid() && PlacementOk(d)
    ensures var placements := ColumnPanels(d.columns) + d.floating;
      && multiset(placements) == multiset(d.instances.keys)
      && Distinct(placements)
      && |placements| == |d.instances.keys|
      && forall k :: 0 <= k < |placements| ==> d.Has(placements[k])
  {
    var placements := ColumnPanels(d.columns) + d.floating;
    ColumnPanelsArePlaced(d.columns);
    assert multiset(placements) == multiset(d.instances.keys);
    DistinctPart(placements, multiset{}, d.instances.keys);
    assert |multiset(placements)| == |placements|;
    assert |multiset(d.instances.keys)| == |d.instances.keys|;
    forall k | 0 <= k < |placements|
      ensures d.Has(placements[k])
    {
      assert placements[k] in multiset(placements);
      assert placements[k] in d.instances.keys;
    }
  }

  /** The invariant leaves the repository's check nothing to report. */
  lemma {:induction false} CoreHasNoErrors(d: Document)
    requires Core(d)
    ensures InvariantErrors(d) == []
  {
    PlacementsAreInstances(d);
    SizedHasNoError(d.columns);
    DevicesAreDistinct(InstanceList(d.instances));
  }
}
