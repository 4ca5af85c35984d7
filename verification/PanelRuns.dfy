/** The layout state machine: every action, every run. */
module PanelRuns {
  import opened Outcomes
  import opened Records
  import opened PanelTypes
  import O = PanelOperations
  import opened PanelReducers
  import opened PanelPresets
  import opened PanelNormalization
  import opened PanelState

  type Target = O.Target

  datatype Action =
    | CreatePanel(kind: Kind, target: Target)
    | DuplicatePanel(id: PanelId, target: Target)
    | CommitHardware(id: PanelId, config: Config)
    | CommitBitLabel(id: PanelId, bit: int, text: string)
    | CommitSettings(id: PanelId, config: Config)
    | ClosePanel(id: PanelId)
    | ToggleMinimized(id: PanelId)
    | FocusPanel(id: PanelId)
    | SetTerminalOwner(id: PanelId)
    | RevealKind(kind: Kind)
    | SetColumnCount(count: int)
    | CommitColumnWidths(widths: seq<real>)
    | CommitPanelSizes(column: ColumnId, sizes: map<PanelId, real>)
    | MovePanel(id: PanelId, column: ColumnId, index: Option<int>)
    | FloatPanel(id: PanelId, floatAt: Option<Rect>)
    | MoveFloatingPanel(id: PanelId, rect: Rect)
    | BringToFront(id: PanelId)
    | ResetToPreset(preset: PresetId)
    | SaveView(view: string, name: string)
    | RestoreView(view: string)
    | RenameView(view: string, name: string)
    | DeleteView(view: string)
    | Hydrate(stored: RawState)
    | ReplaceLayout(raw: RawDocument)
    | RestoreBaseline(raw: RawDocument, source: Option<SourceView>, dirty: bool)

  /** The layout's table is an object's, and it has a column. */
  ghost predicate Shaped(d: Document) {
    d.instances.Valid() && d.columns != []
  }

  ghost predicate Acceptable(a: Action) {
    match a
    case CommitHardware(_, config) => !config.Plain?
    case Hydrate(stored) => IsReadable(stored.active) && AreReadable(stored.views)
    case ReplaceLayout(raw) => IsReadable(raw)
    case RestoreBaseline(raw, _, _) => IsReadable(raw)
    case _ => true
  }

  predicate EditsLayout(a: Action) {
    !a.ResetToPreset? && !a.SaveView? && !a.RestoreView? && !a.RenameView? && !a.DeleteView?
    && !a.Hydrate? && !a.ReplaceLayout? && !a.RestoreBaseline?
  }

  function Edit(d: Document, a: Action, env: Environment): O.Change
    requires Shaped(d) && Acceptable(a) && EditsLayout(a)
  {
    match a
    case CreatePanel(kind, target) => O.AddInstance(d, kind, target, env.allocate)
    case DuplicatePanel(id, target) => O.DuplicatePanel(d, id, target, env.allocate)
    case CommitHardware(id, config) => O.CommitHardwareConfiguration(d, id, config)
    case CommitBitLabel(id, bit, text) => O.CommitBitLabel(d, id, bit, text)
    case CommitSettings(id, config) => O.CommitSettings(d, id, config)
    case ClosePanel(id) => O.ClosePanel(d, id)
    case ToggleMinimized(id) => O.ToggleMinimized(d, id)
    case FocusPanel(id) => O.FocusPanel(d, id)
    case SetTerminalOwner(id) => O.SetTerminalOwner(d, id)
    case RevealKind(kind) => O.RevealKind(d, kind, env.allocate)
    case SetColumnCount(count) => O.SetColumnCount(d, count)
    case CommitColumnWidths(widths) => O.CommitColumnWidths(d, widths)
    case CommitPanelSizes(column, sizes) => O.CommitPanelSizes(d, column, sizes)
    case MovePanel(id, column, index) => O.MovePanel(d, id, column, index)
    case FloatPanel(id, rect) => O.FloatPanel(d, id, rect)
    case MoveFloatingPanel(id, rect) => O.MoveFloatingPanel(d, id, rect)
    case BringToFront(id) => O.BringToFront(d, id)
  }

  function Applied(s: State, change: O.Change): State {
    s.(layout := change.document, dirty := s.dirty || change.dirty)
  }

  function ViewName(name: string): string {
    O.Take(O.Trim(name), 60)
  }

  /** A layout that replaces the active one; a failure leaves the state alone. */
  function Replaced(s: State, d: Option<Document>, source: Option<SourceView>, dirty: bool): State {
    if d.None? then s else s.(layout := d.value, source := source, dirty := dirty)
  }

  function Saving(s: State, view: string, name: string, env: Environment): State
    requires Shaped(s.layout)
  {
    var document := NormalizeDocument(Saved(s.layout), env.configure, env.allocate);
    if ViewName(name) == "" || (view !in s.views.values && |s.viewOrder| >= MAX_SAVED_PANEL_VIEWS) || document.None? then s
    else
      s.(views := s.views.Set(view, View(view, ViewName(name), document.value)),
         viewOrder := if view in s.viewOrder then s.viewOrder else s.viewOrder + [view],
         source := Some(OfView(view)), dirty := false)
  }

  ghost predicate ShapedState(s: State) {
    && Shaped(s.layout)
    && forall v :: v in s.views.values ==> s.views.values[v].document.instances.Valid()
  }

  function Restored(s: State, view: string, env: Environment): State
    requires ShapedState(s)
  {
    if view !in s.views.values then s
    else
      Replaced(s, NormalizeDocument(Saved(s.views.values[view].document), env.configure, env.allocate),
               Some(OfView(s.views.values[view].id)), false)
  }

  function Renamed(s: State, view: string, name: string): State {
    if view !in s.views.values || ViewName(name) == "" then s
    else s.(views := s.views.Set(view, s.views.values[view].(name := ViewName(name))))
  }

  function Deleted(s: State, view: string): State {
    if view !in s.views.values then s
    else
      s.(views := s.views.Delete(view), viewOrder := Without(s.viewOrder, view),
         source := if s.source == Some(OfView(view)) then None else s.source)
  }

  function Step(s: State, a: Action, env: Environment): State
    requires ShapedState(s) && Acceptable(a)
  {
    match a
    case ResetToPreset(preset) =>
      Replaced(s, Preset(DefinitionOf(preset), env.allocate), Some(OfPreset(preset)), false)
    case SaveView(view, name) => Saving(s, view, name, env)
    case RestoreView(view) => Restored(s, view, env)
    case RenameView(view, name) => Renamed(s, view, name)
    case DeleteView(view) => Deleted(s, view)
    case Hydrate(stored) => Hydrated(stored, env).GetOr(s)
    case ReplaceLayout(raw) => Replaced(s, NormalizeDocument(raw, env.configure, env.allocate), s.source, true)
    case RestoreBaseline(raw, source, dirty) =>
      Replaced(s, NormalizeDocument(raw, env.configure, env.allocate), source, dirty)
    case _ =>
      Applied(s, Edit(s.layout, a, env))
  }

  // --- One edit ------------------------------------------------------------------------------

  /** The action makes a new panel, and gives it an identifier that is taken. */
  predicate Collides(d: Document, a: Action, env: Environment)
    requires Shaped(d)
  {
    match a
    case CreatePanel(kind, _) => AddCollides(d, kind, env.allocate)
    case RevealKind(kind) => RevealCollides(d, kind, env.allocate)
    case DuplicatePanel(id, _) => DuplicateCollides(d, id, env.allocate)
    case _ => false
  }

  lemma {:induction false} EditKeepsCoreExactly(d: Document, a: Action, env: Environment)
    requires Core(d) && Shaped(d) && Acceptable(a) && EditsLayout(a)
    ensures Core(Edit(d, a, env).document) <==> !Collides(d, a, env)
  {
    hide Core, O.AddInstance, O.DuplicatePanel, O.CommitHardwareConfiguration, O.CommitBitLabel, O.CommitSettings,
      O.ClosePanel, O.ToggleMinimized, O.FocusPanel, O.SetTerminalOwner, O.RevealKind, O.SetColumnCount,
      O.CommitColumnWidths, O.CommitPanelSizes, O.MovePanel, O.FloatPanel, O.MoveFloatingPanel, O.BringToFront;
    CoreIsShaped(d);
    match a {
      case CreatePanel(kind, target) => AddKeepsCoreExactly(d, kind, target, env.allocate);
      case DuplicatePanel(id, target) => DuplicateKeepsCoreExactly(d, id, target, env.allocate);
      case CommitHardware(id, config) => HardwareKeepsCore(d, id, config);
      case CommitBitLabel(id, bit, text) => BitLabelKeepsCore(d, id, bit, text);
      case CommitSettings(id, config) => SettingsKeepCore(d, id, config);
      case ClosePanel(id) => CloseKeepsCore(d, id);
      case ToggleMinimized(id) => ToggleKeepsCore(d, id);
      case FocusPanel(id) => FocusKeepsCore(d, id);
      case SetTerminalOwner(id) => OwnerChoiceKeepsCore(d, id);
      case RevealKind(kind) => RevealKeepsCoreExactly(d, kind, env.allocate);
      case SetColumnCount(count) => ColumnCountKeepsCore(d, count);
      case CommitColumnWidths(widths) => WidthsKeepCore(d, widths);
      case CommitPanelSizes(column, sizes) => SizesKeepCore(d, column, sizes);
      case MovePanel(id, column, index) => MoveKeepsCore(d, id, column, index);
      case FloatPanel(id, rect) => FloatKeepsCore(d, id, rect);
      case MoveFloatingPanel(id, rect) => MoveFloatingKeepsCore(d, id, rect);
      case BringToFront(id) => BringToFrontKeepsCore(d, id);
    }
  }

  lemma {:induction false} CoreIsShaped(d: Document)
    requires Core(d)
    ensures Shaped(d)
  {
  }

  lemma {:induction false} EditKeepsInv(d: Document, a: Action, env: Environment)
    requires Inv(d) && Acceptable(a) && EditsLayout(a)
    ensures Inv(Edit(d, a, env).document)
  {
    hide Core, Fresh, NoNewNames, O.AddInstance, O.DuplicatePanel, O.CommitHardwareConfiguration, O.CommitBitLabel, O.CommitSettings,
      O.ClosePanel, O.ToggleMinimized, O.FocusPanel, O.SetTerminalOwner, O.RevealKind, O.SetColumnCount,
      O.CommitColumnWidths, O.CommitPanelSizes, O.MovePanel, O.FloatPanel, O.MoveFloatingPanel, O.BringToFront;
    CoreIsShaped(d);
    FreshDoesNotCollide(d, a, env);
    EditKeepsCoreExactly(d, a, env);
    match a {
      case CreatePanel(kind, target) => AddKeepsFresh(d, kind, target, env.allocate);
      case DuplicatePanel(id, target) => DuplicateKeepsFresh(d, id, target, env.allocate);
      case RevealKind(kind) => RevealKeepsFresh(d, kind, env.allocate);
      case SetColumnCount(count) => ColumnCountKeepsFresh(d, count);
      case CommitHardware(id, config) => HardwareKeepsCore(d, id, config); Names(d, a, env);
      case CommitBitLabel(id, bit, text) => BitLabelKeepsCore(d, id, bit, text); Names(d, a, env);
      case CommitSettings(id, config) => SettingsKeepCore(d, id, config); Names(d, a, env);
      case ClosePanel(id) => ClosedNames(d, id); Names(d, a, env);
      case ToggleMinimized(id) => ToggleKeepsCore(d, id); Names(d, a, env);
      case FocusPanel(id) => FocusKeepsCore(d, id); Names(d, a, env);
      case SetTerminalOwner(id) => OwnerChoiceKeepsCore(d, id); Names(d, a, env);
      case CommitColumnWidths(widths) => WidthsKeepCore(d, widths); Names(d, a, env);
      case CommitPanelSizes(column, sizes) => SizesKeepCore(d, column, sizes); Names(d, a, env);
      case MovePanel(id, column, index) => MoveKeepsCore(d, id, column, index); Names(d, a, env);
      case FloatPanel(id, rect) => FloatKeepsCore(d, id, rect); Names(d, a, env);
      case MoveFloatingPanel(id, rect) => MoveFloatingKeepsCore(d, id, rect); Names(d, a, env);
      case BringToFront(id) => BringToFrontKeepsCore(d, id); Names(d, a, env);
    }
  }

  lemma {:induction false} Names(d: Document, a: Action, env: Environment)
    requires Shaped(d) && Acceptable(a) && EditsLayout(a)
    requires Fresh(d) && NoNewNames(d, Edit(d, a, env).document)
    ensures Fresh(Edit(d, a, env).document)
  {
    hide Edit;
    NoNewNamesKeepsFresh(d, Edit(d, a, env).document);
  }

  lemma {:induction false} FreshDoesNotCollide(d: Document, a: Action, env: Environment)
    requires Fresh(d) && Shaped(d)
    ensures !Collides(d, a, env)
  {
  }

  // --- Runs -----------------------------------------------------------------------------------

  ghost predicate AllInv(s: State) {
    Inv(s.layout) && forall v :: v in s.views.values ==> Inv(s.views.values[v].document)
  }

  lemma {:induction false} CoreStateIsShaped(s: State)
    requires AllCore(s)
    ensures ShapedState(s)
  {
    hide Core, Shaped;
    CoreIsShaped(s.layout);
    forall v | v in s.views.values
      ensures s.views.values[v].document.instances.Valid()
    {
      CoreIsShaped(s.views.values[v].document);
    }
  }

  lemma {:induction false} InvStateIsCore(s: State)
    requires AllInv(s)
    ensures AllCore(s)
  {
    hide Core, Fresh;
  }

  /** A document from outside the run. */
  predicate Imports(a: Action) {
    a.Hydrate? || a.ReplaceLayout? || a.RestoreBaseline?
  }

  lemma {:induction false} NormalizedKeepsAllCore(s: State, raw: RawDocument, env: Environment, source: Option<SourceView>, dirty: bool)
    requires AllCore(s) && KeepsKind(env.configure) && (raw.RawDocument? ==> raw.instances.Valid())
    ensures AllCore(Replaced(s, NormalizeDocument(raw, env.configure, env.allocate), source, dirty))
  {
    hide Core, NormalizeDocument;
    if NormalizeDocument(raw, env.configure, env.allocate).Some? {
      NormalizedIsCore(raw, env.configure, env.allocate);
    }
  }

  lemma {:induction false} SavingKeepsAllCore(s: State, view: string, name: string, env: Environment)
    requires AllCore(s) && KeepsKind(env.configure) && ShapedState(s)
    ensures AllCore(Saving(s, view, name, env))
  {
    hide Core, NormalizeDocument, ViewName, Saved;
    var document := NormalizeDocument(Saved(s.layout), env.configure, env.allocate);
    if document.Some? {
      NormalizedIsCore(Saved(s.layout), env.configure, env.allocate);
    }
  }

  /** An action keeps the core invariant of the layout and of every saved view
      if and only if it gives no new panel an identifier already in use. */
  lemma {:induction false} StepKeepsCoreExactly(s: State, a: Action, env: Environment)
    requires AllCore(s) && ShapedState(s) && Acceptable(a) && KeepsKind(env.configure)
    ensures AllCore(Step(s, a, env)) <==> !Collides(s.layout, a, env)
  {
    hide Core, Edit, NormalizeDocument, Preset, DefinitionOf, Saving, ViewName, Saved, Hydrated,
      AddCollides, DuplicateCollides, RevealCollides;
    match a {
      case ResetToPreset(preset) =>
        if Preset(DefinitionOf(preset), env.allocate).Some? {
          PresetsSatisfyInvariant(preset, env.allocate);
          InvIsCore(Preset(DefinitionOf(preset), env.allocate).value);
        }
      case SaveView(view, name) => SavingKeepsAllCore(s, view, name, env);
      case RestoreView(view) =>
        if view in s.views.values {
          NormalizedKeepsAllCore(s, Saved(s.views.values[view].document), env, Some(OfView(s.views.values[view].id)), false);
        }
      case RenameView(view, name) =>
      case DeleteView(view) =>
      case Hydrate(stored) =>
        if Hydrated(stored, env).Some? {
          HydratedIsCore(stored, env);
        }
      case ReplaceLayout(raw) => NormalizedKeepsAllCore(s, raw, env, s.source, true);
      case RestoreBaseline(raw, source, dirty) => NormalizedKeepsAllCore(s, raw, env, source, dirty);
      case _ => EditKeepsCoreExactly(s.layout, a, env);
    }
  }

  lemma {:induction false} RestoringKeepsAllInv(s: State, d: Document, env: Environment, source: Option<SourceView>)
    requires AllInv(s) && Inv(d) && d.instances.Valid() && KeepsKind(env.configure)
    ensures AllInv(Replaced(s, NormalizeDocument(Saved(d), env.configure, env.allocate), source, false))
  {
    hide Inv, NormalizeDocument, Saved;
    if NormalizeDocument(Saved(d), env.configure, env.allocate).Some? {
      RestoredIsInv(d, env.configure, env.allocate);
    }
  }

  lemma {:induction false} SavingKeepsAllInv(s: State, view: string, name: string, env: Environment)
    requires AllInv(s) && KeepsKind(env.configure) && ShapedState(s)
    ensures AllInv(Saving(s, view, name, env))
  {
    hide Inv, NormalizeDocument, ViewName, Saved;
    var document := NormalizeDocument(Saved(s.layout), env.configure, env.allocate);
    if document.Some? {
      RestoredIsInv(s.layout, env.configure, env.allocate);
    }
  }

  /** Without imports, every action keeps the full invariant everywhere. */
  lemma {:induction false} StepKeepsInv(s: State, a: Action, env: Environment)
    requires AllInv(s) && ShapedState(s) && Acceptable(a) && KeepsKind(env.configure) && !Imports(a)
    ensures AllInv(Step(s, a, env))
  {
    hide Inv, Edit, NormalizeDocument, Preset, DefinitionOf, Saving, ViewName, Saved;
    match a {
      case ResetToPreset(preset) =>
        if Preset(DefinitionOf(preset), env.allocate).Some? {
          PresetsSatisfyInvariant(preset, env.allocate);
        }
      case SaveView(view, name) => SavingKeepsAllInv(s, view, name, env);
      case RestoreView(view) =>
        if view in s.views.values {
          RestoringKeepsAllInv(s, s.views.values[view].document, env, Some(OfView(s.views.values[view].id)));
        }
      case RenameView(view, name) =>
      case DeleteView(view) =>
      case Hydrate(_) =>
      case ReplaceLayout(_) =>
      case RestoreBaseline(_, _, _) =>
      case _ => EditKeepsInv(s.layout, a, env);
    }
  }

  /** The state after some actions; the model gives none if an action could not be carried out. */
  ghost function After(s: State, actions: seq<Action>, env: Environment): Option<State> {
    if actions == [] then Some(s)
    else
      match After(s, actions[..|actions| - 1], env)
      case None => None
      case Some(before) =>
        if ShapedState(before) && Acceptable(actions[|actions| - 1]) then
          Some(Step(before, actions[|actions| - 1], env))
        else None
  }

  ghost predicate AllAcceptable(actions: seq<Action>) {
    forall k :: 0 <= k < |actions| ==> Acceptable(actions[k])
  }

  predicate NoImports(actions: seq<Action>) {
    forall k :: 0 <= k < |actions| ==> !Imports(actions[k])
  }

  /** No action of the run gives a new panel an identifier that is taken at that moment. */
  ghost predicate NeverCollides(s: State, actions: seq<Action>, env: Environment) {
    actions != [] ==>
      var front := actions[..|actions| - 1];
      && NeverCollides(s, front, env)
      && (After(s, front, env).Some? && Shaped(After(s, front, env).value.layout) ==>
            !Collides(After(s, front, env).value.layout, actions[|actions| - 1], env))
  }

  /** From a state that satisfies the invariant (a fresh preset, say), every
      sequence of actions without imports can be carried out to its end; the
      layout it leads to satisfies the invariant, and the repository's check
      finds nothing to report. */
  lemma {:induction false} RunKeepsInvariant(s: State, actions: seq<Action>, env: Environment)
    requires AllInv(s) && AllAcceptable(actions) && NoImports(actions) && KeepsKind(env.configure)
    ensures After(s, actions, env).Some?
    ensures var t := After(s, actions, env).value;
      AllInv(t) && AllCore(t) && InvariantErrors(t.layout) == []
  {
    hide Inv, Core, Step, ShapedState, InvariantErrors;
    if actions != [] {
      RunKeepsInvariant(s, actions[..|actions| - 1], env);
      var before := After(s, actions[..|actions| - 1], env).value;
      CoreStateIsShaped(before);
      StepKeepsInv(before, actions[|actions| - 1], env);
    }
    var t := After(s, actions, env).value;
    InvStateIsCore(t);
    CoreHasNoErrors(t.layout);
  }

  /** The run goes to its end, and the layout and all views satisfy the core invariant all along. */
  ghost predicate CoreThroughout(s: State, actions: seq<Action>, env: Environment) {
    && (actions != [] ==> CoreThroughout(s, actions[..|actions| - 1], env))
    && After(s, actions, env).Some? && AllCore(After(s, actions, env).value)
  }

  /** With imported documents, exactly the runs in which no new panel takes an
      identifier in use keep the core invariant all along. */
  lemma {:induction false} RunKeepsCoreExactly(s: State, actions: seq<Action>, env: Environment)
    requires AllCore(s) && AllAcceptable(actions) && KeepsKind(env.configure)
    ensures CoreThroughout(s, actions, env) <==> NeverCollides(s, actions, env)
  {
    hide Core, AllCore, Shaped, Step, ShapedState, Collides;
    if actions != [] {
      var front, a := actions[..|actions| - 1], actions[|actions| - 1];
      RunKeepsCoreExactly(s, front, env);
      if CoreThroughout(s, front, env) {
        var before := After(s, front, env).value;
        CoreStateIsShaped(before);
        ShapedParts(before);
        StepKeepsCoreExactly(before, a, env);
      }
    }
  }

  lemma {:induction false} ShapedParts(s: State)
    requires ShapedState(s)
    ensures Shaped(s.layout)
  {
    hide Shaped;
  }

  /** So such runs go to their end, and the repository's check finds nothing there. */
  lemma {:induction false} RunKeepsCore(s: State, actions: seq<Action>, env: Environment)
    requires AllCore(s) && AllAcceptable(actions) && NeverCollides(s, actions, env) && KeepsKind(env.configure)
    ensures After(s, actions, env).Some?
    ensures var t := After(s, actions, env).value;
      AllCore(t) && InvariantErrors(t.layout) == []
  {
    hide Core, Step, ShapedState, InvariantErrors, Collides;
    RunKeepsCoreExactly(s, actions, env);
    CoreHasNoErrors(After(s, actions, env).value.layout);
  }

  /** In every reachable state the terminal owner is set exactly when some
      terminal exists, and is then one. */
  lemma {:induction false} RunKeepsOwner(s: State, actions: seq<Action>, env: Environment)
    requires AllCore(s) && AllAcceptable(actions) && NeverCollides(s, actions, env) && KeepsKind(env.configure)
    ensures After(s, actions, env).Some?
    ensures var d := After(s, actions, env).value.layout;
      && (d.owner.Some? <==> exists id :: IsTerminal(d.instances.values, id))
      && (d.owner.Some? ==> IsTerminal(d.instances.values, d.owner.value))
  {
    RunKeepsCore(s, actions, env);
  }

  // --- A collision ---------------------------------------------------------------------------

  /** A stored layout whose sequence number is behind its only panel. */
  function LateSequence(): RawDocument {
    var id := Generated(Terminal, 1);
    RawDocument(None, None, [RawColumn(None, None, [id], map[])], [],
                Record([id], map[id := RawInstance(Some(Terminal), None, false, None, None)]), None, None, Some(1), None)
  }

  lemma {:induction false} LateInstances(configure: Configurer)
    requires configure(Terminal, Generated(Terminal, 1), None, []).Some?
    ensures LateSequence().instances.Valid()
    ensures NormalInstances(LateSequence().instances, 1, configure).Some?
    ensures NormalInstances(LateSequence().instances, 1, configure).value.keys == [Generated(Terminal, 1)]
  {
    var raws := LateSequence().instances;
    assert NormalInstances(raws, 0, configure) == Some(Empty());
    assert InstanceList(Empty()) == [];
  }

  /** Read from storage, it gives the next terminal an identifier that is
      taken, and the panel made then is in two places. */
  lemma {:induction false} LateSequenceCollides(env: Environment, target: Target)
    requires KeepsKind(env.configure) && env.configure(Terminal, Generated(Terminal, 1), None, []).Some?
    ensures IsReadable(LateSequence()) && NormalizeDocument(LateSequence(), env.configure, env.allocate).Some?
    ensures var d := NormalizeDocument(LateSequence(), env.configure, env.allocate).value;
      && Core(d) && Shaped(d) && Collides(d, CreatePanel(Terminal, target), env)
      && !Core(O.AddInstance(d, Terminal, target, env.allocate).document)
  {
    hide Core, PlaceAll, Settled, NormalOwner, O.AddInstance, InvariantErrors, NormalInstances, O.Take;
    var raw := LateSequence();
    LateInstances(env.configure);
    assert Within(|raw.instances.keys|, MAX_PANEL_INSTANCES) == 1;
    var d := NormalizeDocument(raw, env.configure, env.allocate).value;
    NormalizedIsCore(raw, env.configure, env.allocate);
    assert d.nextInstance == 1;
    NormalInstancesAreKept(raw.instances, 1, env.configure);
    SettledInstances(NormalInstances(raw.instances, 1, env.configure).value,
                     PlaceAll(raw, [Generated(Terminal, 1)], CountOf(raw)).floating);
    assert d.instances.keys == [Generated(Terminal, 1)];
    CoreIsShaped(d);
    assert d.Has(O.NextId(d, Terminal));
    AddKeepsCoreExactly(d, Terminal, target, env.allocate);
  }

  lemma {:induction false} DeletingKeepsViews(s: State, view: string)
    requires ViewsOk(s)
    ensures ViewsOk(Deleted(s, view))
  {
    WithoutElements(s.viewOrder, view);
    WithoutDistinct(s.viewOrder, view);
    s.views.DeleteKeepsValid(view);
    WithoutShorter(s.viewOrder, view);
  }

  lemma {:induction false} RenamingKeepsViews(s: State, view: string, name: string)
    requires ViewsOk(s)
    ensures ViewsOk(Renamed(s, view, name))
  {
    hide ViewName;
    if view in s.views.values {
      s.views.SetKeepsValid(view, s.views.values[view].(name := ViewName(name)));
    }
  }

  lemma {:induction false} SameViews(s: State, s': State)
    requires ViewsOk(s) && s'.views == s.views && s'.viewOrder == s.viewOrder
    ensures ViewsOk(s')
  {
  }

  /** The stored order repeats a view that exists. */
  ghost predicate RepeatsView(a: Action, env: Environment)
    requires Acceptable(a)
  {
    a.Hydrate? && Hydrated(a.stored, env).Some?
    && !Distinct(Listed(a.stored.order, Hydrated(a.stored, env).value.views.values))
  }

  /** Saved views stay listed once each and within their limit, unless a
      state is read from storage whose order repeats a view. */
  lemma {:induction false} StepKeepsViewsExactly(s: State, a: Action, env: Environment)
    requires ViewsOk(s) && ShapedState(s) && Acceptable(a)
    ensures ViewsOk(Step(s, a, env)) <==> !RepeatsView(a, env)
  {
    hide Edit, NormalizeDocument, Preset, DefinitionOf, ViewName, Saved, Saving, Deleted, Renamed, ViewsOk, Hydrated, Distinct;
    match a {
      case SaveView(view, name) => SavingKeepsViews(s, view, name, env);
      case RenameView(view, name) => RenamingKeepsViews(s, view, name);
      case DeleteView(view) => DeletingKeepsViews(s, view);
      case Hydrate(stored) =>
        if Hydrated(stored, env).Some? {
          HydrationListsOnceExactly(stored, env);
        }
      case _ => SameViews(s, Step(s, a, env));
    }
  }

  lemma {:induction false} SavingKeepsViews(s: State, view: string, name: string, env: Environment)
    requires ViewsOk(s) && Shaped(s.layout)
    ensures ViewsOk(Saving(s, view, name, env))
  {
    hide NormalizeDocument, ViewName, Saved;
    var document := NormalizeDocument(Saved(s.layout), env.configure, env.allocate);
    if document.Some? {
      s.views.SetKeepsValid(view, View(view, ViewName(name), document.value));
    }
  }

  lemma {:induction false} WithoutShorter(s: seq<string>, x: string)
    ensures |Without(s, x)| <= |s|
  {
    if s != [] {
      WithoutShorter(s[..|s| - 1], x);
    }
  }
}
