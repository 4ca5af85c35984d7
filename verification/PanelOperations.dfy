/** The panel layout reducers as functions on the document. */
module PanelOperations {
  import opened Outcomes
  import opened Records
  import opened PanelTypes

  /** A document after an action, and whether the action marks it as edited. */
  datatype Change = Change(document: Document, dirty: bool)

  function Unchanged(d: Document): Change {
    Change(d, false)
  }

  /** Where a new panel goes: a rectangle, or a column and position. */
  datatype Target = Target(column: Option<ColumnId>, index: Option<int>, rect: Option<Rect>)

  /** The device allocator, which is not part of this model: free addresses for
      one more device of a kind, if there are any. */
  type Allocator = (seq<Config>, Kind) -> Option<(int, int, int)>

  // --- Column sizes -----------------------------------------------------------------------

  function Weight(sizes: Record<PanelId, real>, id: PanelId): (w: real)
    ensures w > 0.0
  {
    if id in sizes.values && sizes.values[id] > 0.0 then sizes.values[id] else 1.0
  }

  function TotalWeight(ids: seq<PanelId>, sizes: Record<PanelId, real>): (total: real)
    ensures total >= 0.0
    ensures ids != [] ==> total > 0.0
  {
    if ids == [] then 0.0
    else TotalWeight(ids[..|ids| - 1], sizes) + Weight(sizes, ids[|ids| - 1])
  }

  /** A hundredth part of `total` is one. */
  function Share(weight: real, total: real): real
    requires total > 0.0
  {
    weight / total * 100.0
  }

  function Shares(ids: seq<PanelId>, sizes: Record<PanelId, real>, total: real): Record<PanelId, real>
    requires total > 0.0
  {
    if ids == [] then Empty()
    else
      var last := ids[|ids| - 1];
      Shares(ids[..|ids| - 1], sizes, total).Set(last, Share(Weight(sizes, last), total))
  }

  function NormalizedColumn(column: Column): Column {
    if column.panelIds == [] then column.(sizes := Empty())
    else column.(sizes := Shares(column.panelIds, column.sizes, TotalWeight(column.panelIds, column.sizes)))
  }

  // --- Placement ---------------------------------------------------------------------------

  function RemoveFromColumn(column: Column, id: PanelId): Column {
    NormalizedColumn(column.(panelIds := Without(column.panelIds, id), sizes := column.sizes.Delete(id)))
  }

  function RemoveFromColumns(columns: seq<Column>, id: PanelId): (removed: seq<Column>)
    ensures |removed| == |columns|
  {
    if columns == [] then []
    else RemoveFromColumns(columns[..|columns| - 1], id) + [RemoveFromColumn(columns[|columns| - 1], id)]
  }

  function RemovePlacement(d: Document, id: PanelId): Document {
    d.(columns := RemoveFromColumns(d.columns, id), floating := Without(d.floating, id))
  }

  function InsertIntoColumn(column: Column, index: Option<int>, id: PanelId): Column {
    var k := Clamp(index.GetOr(|column.panelIds|), |column.panelIds|);
    NormalizedColumn(column.(panelIds := Inserted(column.panelIds, k, id)))
  }

  function PlaceInColumn(d: Document, c: nat, index: Option<int>, id: PanelId): Document
    requires c < |d.columns|
  {
    d.(columns := d.columns[c := InsertIntoColumn(d.columns[c], index, id)])
  }

  function FindColumn(columns: seq<Column>, id: ColumnId): (c: Option<nat>)
    ensures c.Some? ==> c.value < |columns| && columns[c.value].id == id
    ensures c.Some? ==> forall i :: 0 <= i < c.value ==> columns[i].id != id
    ensures c.None? ==> forall i :: 0 <= i < |columns| ==> columns[i].id != id
  {
    if columns == [] then None
    else
      var front := FindColumn(columns[..|columns| - 1], id);
      if front.Some? then front
      else if columns[|columns| - 1].id == id then Some(|columns| - 1) else None
  }

  function Expanded(ids: seq<PanelId>, instances: map<PanelId, Instance>): nat {
    if ids == [] then 0
    else
      var last := ids[|ids| - 1];
      Expanded(ids[..|ids| - 1], instances) + if last in instances && instances[last].minimized then 0 else 1
  }

  /** The column with the fewest expanded panels, the rightmost of several. */
  function LeastExpanded(columns: seq<Column>, instances: map<PanelId, Instance>): (c: nat)
    requires columns != []
    ensures c < |columns|
  {
    var last := |columns| - 1;
    if last == 0 then 0
    else
      var best := LeastExpanded(columns[..last], instances);
      if Expanded(columns[last].panelIds, instances) <= Expanded(columns[best].panelIds, instances) then last else best
  }

  // --- Terminal owner -----------------------------------------------------------------------

  function FirstVisibleTerminal(ids: seq<PanelId>, instances: map<PanelId, Instance>): (r: Option<PanelId>)
    ensures r.Some? ==> r.value in instances && instances[r.value].kind == Terminal && !instances[r.value].minimized
  {
    if ids == [] then None
    else if ids[0] in instances && instances[ids[0]].kind == Terminal && !instances[ids[0]].minimized then Some(ids[0])
    else FirstVisibleTerminal(ids[1..], instances)
  }

  function FirstOfKind(ids: seq<PanelId>, instances: map<PanelId, Instance>, kind: Kind): (r: Option<PanelId>)
    ensures r.Some? ==> r.value in ids && r.value in instances && instances[r.value].kind == kind
    ensures r.None? ==> forall id :: id in ids && id in instances ==> instances[id].kind != kind
  {
    if ids == [] then None
    else if ids[0] in instances && instances[ids[0]].kind == kind then Some(ids[0])
    else FirstOfKind(ids[1..], instances, kind)
  }

  function Reversed<T>(s: seq<T>): seq<T> {
    if s == [] then [] else Reversed(s[1..]) + [s[0]]
  }

  function Listed(id: Option<PanelId>): seq<PanelId> {
    match id
    case Some(value) => [value]
    case None => []
  }

  /** The focused panel if it is a visible terminal, else the topmost floating
      one, else the first docked one, else any terminal. */
  function VisibleTerminalReplacement(d: Document): Option<PanelId> {
    var candidates := Listed(d.focused) + Reversed(d.floating) + ColumnPanels(d.columns);
    var visible := FirstVisibleTerminal(candidates, d.instances.values);
    if visible.Some? then visible else FirstOfKind(d.instances.keys, d.instances.values, Terminal)
  }

  // --- Creating -----------------------------------------------------------------------------

  function DefaultTitle(kind: Kind): string {
    match kind
    case Terminal => "Screen"
    case Code => "Code"
    case Registers => "Registers"
    case Memory => "Memory"
    case Debugger => "Debugger"
    case HardwareDisplay => "Seven-segment display"
    case HardwareDigitalIo => "LEDs / Switches / Buttons"
    case HardwareInterrupts => "CPU Interrupt Lines"
    case Graphics => "Graphics"
    case Sound => "Sound"
    case Help => "Help"
  }

  const NO_BIT_LABELS: seq<string> := ["", "", "", "", "", "", "", ""]

  /** A new panel's settings, unless no device addresses are left. */
  function CreateConfiguration(kind: Kind, id: PanelId, devices: seq<Config>, allocate: Allocator): (r: Option<Config>)
    ensures r.Some? ==> r.value.Kind() == kind
    ensures kind != HardwareDisplay && kind != HardwareDigitalIo ==> r.Some?
  {
    if kind == HardwareDisplay then
      match allocate(devices, kind)
      case Some((base, _, _)) => Some(Display(DeviceOf(id), base))
      case None => None
    else if kind == HardwareDigitalIo then
      match allocate(devices, kind)
      case Some((led, switch, button)) => Some(DigitalIo(DeviceOf(id), led, switch, button, NO_BIT_LABELS))
      case None => None
    else Some(Plain(kind, ""))
  }

  function NextId(d: Document, kind: Kind): PanelId {
    Generated(kind, d.nextInstance)
  }

  function NewConfiguration(d: Document, kind: Kind, allocate: Allocator): Option<Config>
    requires d.instances.Valid()
  {
    CreateConfiguration(kind, NextId(d, kind), Devices(InstanceList(d.instances)), allocate)
  }

  predicate CanCreate(d: Document, kind: Kind, allocate: Allocator)
    requires d.instances.Valid()
  {
    |d.instances.keys| < MAX_PANEL_INSTANCES && NewConfiguration(d, kind, allocate).Some?
  }

  /** The instance table grows by the new panel. */
  function Register(d: Document, kind: Kind, config: Config, rect: Option<Rect>): Document {
    var id := NextId(d, kind);
    d.(instances := d.instances.Set(id, Instance(id, kind, DefaultTitle(kind), false, rect, config)),
       nextInstance := d.nextInstance + 1)
  }

  function ChosenColumn(d: Document, target: Target): (c: nat)
    requires d.columns != []
    ensures c < |d.columns|
  {
    match if target.column.Some? then FindColumn(d.columns, target.column.value) else None
    case Some(c) => c
    case None => LeastExpanded(d.columns, d.instances.values)
  }

  function PlaceNew(d: Document, id: PanelId, target: Target): Document
    requires d.columns != []
  {
    if target.rect.Some? then d.(floating := d.floating + [id])
    else PlaceInColumn(d, ChosenColumn(d, target), target.index, id)
  }

  function FocusNew(d: Document, id: PanelId, kind: Kind): Document {
    d.(focused := Some(id), owner := if kind == Terminal && d.owner.None? then Some(id) else d.owner)
  }

  function ClampedTarget(target: Target): Option<Rect> {
    match target.rect
    case Some(rect) => Some(ClampFloatingRect(rect))
    case None => None
  }

  function AddInstance(d: Document, kind: Kind, target: Target, allocate: Allocator): Change
    requires d.instances.Valid() && d.columns != []
  {
    if !CanCreate(d, kind, allocate) then Unchanged(d)
    else
      var id := NextId(d, kind);
      var registered := Register(d, kind, NewConfiguration(d, kind, allocate).value, ClampedTarget(target));
      Change(FocusNew(PlaceNew(registered, id, target), id, kind), true)
  }

  function SetInstance(d: Document, id: PanelId, panel: Instance): Document {
    d.(instances := d.instances.Set(id, panel))
  }

  /** A copy takes the title, and the settings unless they bind a device. */
  function CopyOnto(copy: Instance, source: Instance): Instance {
    copy.(title := source.title, config := if source.config.Plain? then source.config else copy.config)
  }

  function DuplicatePanel(d: Document, id: PanelId, target: Target, allocate: Allocator): Change
    requires d.instances.Valid() && d.columns != []
  {
    if !d.Has(id) then Unchanged(d)
    else
      var source := d.At(id);
      var copyId := NextId(d, source.kind);
      var added := AddInstance(d, source.kind, target, allocate);
      if !added.dirty || !added.document.Has(copyId) then added
      else Change(SetInstance(added.document, copyId, CopyOnto(added.document.At(copyId), source)), true)
  }

  // --- Settings ----------------------------------------------------------------------------

  /** Panels bound to one device share its settings. */
  function Mirrored(keys: seq<PanelId>, values: map<PanelId, Instance>, device: DeviceId, config: Config)
    : map<PanelId, Instance>
    requires forall k :: k in keys ==> k in values
    ensures Mirrored(keys, values, device, config).Keys == values.Keys
  {
    if keys == [] then values
    else
      var last := keys[|keys| - 1];
      var before := Mirrored(keys[..|keys| - 1], values, device, config);
      before[last := MirroredPanel(values[last], device, config)]
  }

  function MirroredPanel(panel: Instance, device: DeviceId, config: Config): Instance {
    if panel.config.Kind() == config.Kind() && !panel.config.Plain? && panel.config.device == device
    then panel.(config := config)
    else panel
  }

  function CommitHardwareConfiguration(d: Document, id: PanelId, config: Config): Change
    requires d.instances.Valid() && !config.Plain?
  {
    if !d.Has(id) || d.At(id).kind != config.Kind() then Unchanged(d)
    else if d.At(id).config.Plain? then Change(d, true)
    else
      var values := Mirrored(d.instances.keys, d.instances.values, d.At(id).config.device, config);
      Change(d.(instances := Record(d.instances.keys, values)), true)
  }

  predicate IsSpace(c: char) {
    c == ' ' || c == '\t' || c == '\n' || c == '\r'
  }

  function Trim(s: string): string {
    if s == "" then ""
    else if IsSpace(s[0]) then Trim(s[1..])
    else if IsSpace(s[|s| - 1]) then Trim(s[..|s| - 1])
    else s
  }

  function Take(s: string, n: nat): string {
    if |s| <= n then s else s[..n]
  }

  /** Writing past the end of a list leaves empty labels in between. */
  function SetLabel(labels: seq<string>, bit: nat, text: string): seq<string>
    decreases if bit < |labels| then 0 else bit - |labels| + 1
  {
    if bit < |labels| then labels[bit := text] else SetLabel(labels + [""], bit, text)
  }

  function CommitBitLabel(d: Document, id: PanelId, bit: int, text: string): Change {
    if !d.Has(id) || !d.At(id).config.DigitalIo? || bit < 0 || bit > 7 then Unchanged(d)
    else
      var panel := d.At(id);
      var labels := SetLabel(panel.config.bitLabels, bit, Take(Trim(text), 32));
      Change(SetInstance(d, id, panel.(config := panel.config.(bitLabels := labels))), true)
  }

  /** Graphics, sound and debugger panels take new settings whole. */
  function CommitSettings(d: Document, id: PanelId, config: Config): Change {
    if !d.Has(id) || d.At(id).kind != config.Kind() then Unchanged(d)
    else Change(SetInstance(d, id, d.At(id).(config := config)), true)
  }

  // --- Closing, minimising, focusing -----------------------------------------------------------

  function ClosePanel(d: Document, id: PanelId): Change {
    if !d.Has(id) then Unchanged(d)
    else
      var removed := RemovePlacement(d, id);
      var closed := removed.(
        instances := removed.instances.Delete(id),
        focused := if removed.focused == Some(id) then None else removed.focused);
      Change(ReplaceOwner(closed, id), true)
  }

  function ReplaceOwner(d: Document, id: PanelId): Document {
    if d.owner == Some(id) then d.(owner := VisibleTerminalReplacement(d)) else d
  }

  function ToggleMinimized(d: Document, id: PanelId): Change {
    if !d.Has(id) then Unchanged(d)
    else
      var panel := d.At(id).(minimized := !d.At(id).minimized);
      var toggled := SetInstance(d, id, panel);
      Change(if panel.minimized then ReplaceOwner(toggled, id) else toggled, true)
  }

  function Expand(d: Document, id: PanelId): Document
    requires d.Has(id)
  {
    SetInstance(d, id, d.At(id).(minimized := false))
  }

  function ToFront(floating: seq<PanelId>, id: PanelId): seq<PanelId> {
    Without(floating, id) + [id]
  }

  function FocusPanel(d: Document, id: PanelId): Change {
    if !d.Has(id) then Unchanged(d)
    else
      var expanded := Expand(d, id);
      Change(expanded.(focused := Some(id),
                       floating := if id in d.floating then ToFront(d.floating, id) else d.floating), false)
  }

  function SetTerminalOwner(d: Document, id: PanelId): Change {
    if !IsTerminal(d.instances.values, id) then Unchanged(d)
    else Change(Expand(d, id).(owner := Some(id), focused := Some(id)), true)
  }

  const ANYWHERE := Target(None, None, None)

  function RevealKind(d: Document, kind: Kind, allocate: Allocator): Change
    requires d.instances.Valid() && d.columns != []
  {
    match FirstOfKind(d.instances.keys, d.instances.values, kind)
    case Some(id) => Change(Expand(d, id).(focused := Some(id)), false)
    case None => AddInstance(d, kind, ANYWHERE, allocate)
  }

  // --- Columns ---------------------------------------------------------------------------------

  function ColumnLimit(n: int): (count: nat)
    ensures 1 <= count <= MAX_PANEL_COLUMNS
  {
    if n < 1 then 1 else if n > MAX_PANEL_COLUMNS then MAX_PANEL_COLUMNS else n
  }

  function Grown(d: Document, count: nat): Document
    decreases count - |d.columns|
  {
    if |d.columns| >= count then d
    else
      Grown(d.(columns := d.columns + [Column(Numbered(d.nextColumn), 1.0, [], Empty())],
               nextColumn := d.nextColumn + 1), count)
  }

  /** The panels of the columns that go move to the end of the last one that stays. */
  function Shrunk(d: Document, count: nat): Document
    requires count >= 1
  {
    if |d.columns| <= count then d
    else
      var last := d.columns[count - 1];
      var moved := ColumnPanels(d.columns[count..]);
      d.(columns := d.columns[..count][count - 1 := NormalizedColumn(last.(panelIds := last.panelIds + moved))])
  }

  function WithWidths(columns: seq<Column>, width: real): (widened: seq<Column>)
    ensures |widened| == |columns|
  {
    seq(|columns|, i requires 0 <= i < |columns| => columns[i].(width := width))
  }

  function SetColumnCount(d: Document, n: int): Change {
    var count := ColumnLimit(n);
    var resized := Shrunk(Grown(d, count), count);
    Change(resized.(columnCount := count, columns := WithWidths(resized.columns, 100.0 / count as real)), true)
  }

  function PositiveTotal(widths: seq<real>): (total: real)
    ensures total >= 0.0
  {
    if widths == [] then 0.0
    else PositiveTotal(widths[..|widths| - 1]) + Max(0.0, widths[|widths| - 1])
  }

  function ScaledWidths(columns: seq<Column>, widths: seq<real>, total: real): (scaled: seq<Column>)
    requires |widths| == |columns| && total > 0.0
    ensures |scaled| == |columns|
  {
    seq(|columns|, i requires 0 <= i < |columns| => columns[i].(width := Share(widths[i], total)))
  }

  function CommitColumnWidths(d: Document, widths: seq<real>): Change {
    if |widths| != |d.columns| || PositiveTotal(widths) <= 0.0 then Unchanged(d)
    else Change(d.(columns := ScaledWidths(d.columns, widths, PositiveTotal(widths))), true)
  }

  function Picked(ids: seq<PanelId>, sizes: map<PanelId, real>): Record<PanelId, real>
    requires forall id :: id in ids ==> id in sizes
  {
    if ids == [] then Empty()
    else Picked(ids[..|ids| - 1], sizes).Set(ids[|ids| - 1], sizes[ids[|ids| - 1]])
  }

  function CommitPanelSizes(d: Document, column: ColumnId, sizes: map<PanelId, real>): Change {
    match FindColumn(d.columns, column)
    case None => Unchanged(d)
    case Some(c) =>
      var ids := d.columns[c].panelIds;
      if |ids| < 2 || exists k :: 0 <= k < |ids| && (ids[k] !in sizes || sizes[ids[k]] <= 0.0) then Unchanged(d)
      else Change(d.(columns := d.columns[c := NormalizedColumn(d.columns[c].(sizes := Picked(ids, sizes)))]), true)
  }

  // --- Moving and floating -----------------------------------------------------------------------

  function WithRect(d: Document, id: PanelId, rect: Option<Rect>): Document
    requires d.Has(id)
  {
    SetInstance(d, id, d.At(id).(rect := rect))
  }

  function MovePanel(d: Document, id: PanelId, column: ColumnId, index: Option<int>): Change {
    match FindColumn(d.columns, column)
    case None => Unchanged(d)
    case Some(c) =>
      if !d.Has(id) then Unchanged(d)
      else
        var removed := WithRect(RemovePlacement(d, id), id, None);
        Change(PlaceInColumn(removed, c, index, id).(focused := Some(id)), true)
  }

  function FloatPanel(d: Document, id: PanelId, rect: Option<Rect>): Change {
    if !d.Has(id) then Unchanged(d)
    else
      var removed := WithRect(RemovePlacement(d, id), id, Some(ClampFloatingRect(rect.GetOr(DEFAULT_RECT))));
      Change(removed.(floating := removed.floating + [id], focused := Some(id)), true)
  }

  function MoveFloatingPanel(d: Document, id: PanelId, rect: Rect): Change {
    if !d.Has(id) || id !in d.floating then Unchanged(d)
    else
      Change(WithRect(d, id, Some(ClampFloatingRect(rect))).(floating := ToFront(d.floating, id), focused := Some(id)), true)
  }

  function BringToFront(d: Document, id: PanelId): Change {
    if id !in d.floating then Unchanged(d)
    else Change(d.(floating := ToFront(d.floating, id), focused := Some(id)), false)
  }
}
