/** What the actions on saved views do, and what becomes of a view in a run. */
module PanelViews {
  import opened Outcomes
  import opened Records
  import opened PanelTypes
  import opened PanelNormalization
  import opened PanelColumnEffects
  import opened PanelState
  import opened PanelRuns
  import O = PanelOperations

  // --- One action ------------------------------------------------------------------------------------

  /** Only the view's entry differs. */
  ghost predicate OnlyView(before: Record<string, View>, after: Record<string, View>, view: string) {
    && view in after.values
    && (forall v :: v != view ==> (v in after.values <==> v in before.values))
    && (forall v :: v in before.values && v != view ==> after.values[v] == before.values[v])
    && after.keys == if view in before.values then before.keys else before.keys + [view]
  }

  lemma {:induction false} SettingOneView(views: Record<string, View>, view: string, entry: View)
    ensures OnlyView(views, views.Set(view, entry), view) && views.Set(view, entry).values[view] == entry
  {
  }

  predicate IsBlank(name: string) {
    AreSpaces(name, 0, |name|)
  }

  lemma {:induction false} NameMeans(name: string)
    ensures IsShortened(name, 60, ViewName(name))
    ensures ViewName(name) == "" <==> IsBlank(name)
  {
    hide O.Trim, IsShortened, AreSpaces;
    BlankExactly(name);
    ShorteningMeans(name, 60);
  }

  /** A layout is saved under a name unless that is blank or there is no room for another view. */
  predicate CanSave(s: State, view: string, name: string) {
    !IsBlank(name) && (view in s.views.values || |s.viewOrder| < 20)
  }

  /** Saving keeps the layout as it is and enters a normalised copy under the
      name cut to 60 characters; the view becomes the source, with nothing edited since. */
  lemma {:induction false} SavingMeans(s: State, view: string, name: string, env: Environment)
    requires Shaped(s.layout)
    ensures var copy, t := NormalizeDocument(Saved(s.layout), env.configure, env.allocate), Saving(s, view, name, env);
      if CanSave(s, view, name) && copy.Some? then
        && OnlyView(s.views, t.views, view)
        && t == State(s.layout, Some(OfView(view)), false, t.views,
                      if view in s.viewOrder then s.viewOrder else s.viewOrder + [view])
        && t.views.values[view] == View(view, t.views.values[view].name, copy.value)
        && IsShortened(name, 60, t.views.values[view].name)
      else t == s
  {
    hide NormalizeDocument, Saved, ViewName, IsShortened, IsBlank, OnlyView;
    NameMeans(name);
    var copy := NormalizeDocument(Saved(s.layout), env.configure, env.allocate);
    if copy.Some? {
      SettingOneView(s.views, view, View(view, ViewName(name), copy.value));
    }
  }

  /** Renaming changes the name and nothing else. */
  lemma {:induction false} RenamingMeans(s: State, view: string, name: string)
    ensures var t := Renamed(s, view, name);
      if view in s.views.values && !IsBlank(name) then
        && OnlyView(s.views, t.views, view) && t == s.(views := t.views)
        && t.views.values[view] == s.views.values[view].(name := t.views.values[view].name)
        && IsShortened(name, 60, t.views.values[view].name)
      else t == s
  {
    hide ViewName, IsShortened, IsBlank, OnlyView;
    NameMeans(name);
    if view in s.views.values {
      SettingOneView(s.views, view, s.views.values[view].(name := ViewName(name)));
    }
  }

  /** Deleting takes the view out of the table and the list; the layout stays, without its source. */
  lemma {:induction false} DeletingMeans(s: State, view: string)
    ensures var t := Deleted(s, view);
      if view in s.views.values then
        && t == State(s.layout, if s.source == Some(OfView(view)) then None else s.source, s.dirty, t.views, t.viewOrder)
        && t.views.values == s.views.values - {view}
        && t.views.keys == Without(s.views.keys, view) && t.viewOrder == Without(s.viewOrder, view)
      else t == s
  {
  }

  /** Edits leave the saved views and the source alone, and never count as undoing an edit. */
  lemma {:induction false} EditingMeans(s: State, a: Action, env: Environment)
    requires ShapedState(s) && Acceptable(a) && EditsLayout(a)
    ensures var t := Step(s, a, env);
      && t == State(Edit(s.layout, a, env).document, s.source, t.dirty, s.views, s.viewOrder)
      && (t.dirty <==> s.dirty || Edit(s.layout, a, env).dirty)
  {
    hide Edit;
  }

  // --- A view in a run -----------------------------------------------------------------------------------

  /** The action leaves this view as it was saved. */
  predicate Spares(a: Action, view: string) {
    match a
    case SaveView(other, _) => other != view
    case DeleteView(other) => other != view
    case Hydrate(_) => false
    case _ => true
  }

  predicate KeepsView(s: State, t: State, view: string) {
    && view in s.views.values && view in t.views.values
    && t.views.values[view].document == s.views.values[view].document
    && t.views.values[view].id == s.views.values[view].id
  }

  lemma {:induction false} StepKeepsView(s: State, a: Action, view: string, env: Environment)
    requires ShapedState(s) && Acceptable(a) && Spares(a, view) && view in s.views.values
    ensures KeepsView(s, Step(s, a, env), view)
  {
    hide Edit, NormalizeDocument, Shaped, ViewName, Saved;
    if EditsLayout(a) {
      EditingMeans(s, a, env);
    }
  }

  ghost predicate AllSpare(actions: seq<Action>, view: string) {
    forall k :: 0 <= k < |actions| ==> Spares(actions[k], view)
  }

  lemma {:induction false} RunKeepsView(s: State, actions: seq<Action>, view: string, env: Environment)
    requires view in s.views.values && AllSpare(actions, view) && After(s, actions, env).Some?
    ensures KeepsView(s, After(s, actions, env).value, view)
  {
    hide Step, ShapedState, Acceptable, Spares;
    if actions != [] {
      var front, a := actions[..|actions| - 1], actions[|actions| - 1];
      RunKeepsView(s, front, view, env);
      StepKeepsView(After(s, front, env).value, a, view, env);
    }
  }

  /** Whatever happens after a layout has been saved, as long as the view is not
      saved over, deleted or replaced from storage, restoring it gives the layout that
      restoring it at once would have given. */
  lemma {:induction false} RestoringLaterIsTheSame(
    s: State, view: string, name: string, actions: seq<Action>, env: Environment)
    requires Shaped(s.layout) && CanSave(s, view, name)
    requires NormalizeDocument(Saved(s.layout), env.configure, env.allocate).Some?
    requires AllSpare(actions, view) && After(Saving(s, view, name, env), actions, env).Some?
    requires ShapedState(Saving(s, view, name, env)) && ShapedState(After(Saving(s, view, name, env), actions, env).value)
    ensures var saved := Saving(s, view, name, env);
      var later := After(saved, actions, env).value;
      var copy := NormalizeDocument(Saved(s.layout), env.configure, env.allocate).value;
      && copy.instances.Valid()
      && match NormalizeDocument(Saved(copy), env.configure, env.allocate)
        case Some(d) =>
          && Restored(saved, view, env) == saved.(layout := d, source := Some(OfView(view)), dirty := false)
          && Restored(later, view, env) == later.(layout := d, source := Some(OfView(view)), dirty := false)
        case None => Restored(saved, view, env) == saved && Restored(later, view, env) == later
  {
    hide NormalizeDocument, Saved, CanSave, OnlyView, Saving, After, AllSpare, Shaped;
    SavingMeans(s, view, name, env);
    SavedEntry(s, view, name, env);
    RunKeepsView(Saving(s, view, name, env), actions, view, env);
  }

  lemma {:induction false} SavedEntry(s: State, view: string, name: string, env: Environment)
    requires Shaped(s.layout) && CanSave(s, view, name)
    requires NormalizeDocument(Saved(s.layout), env.configure, env.allocate).Some?
    ensures var t, copy := Saving(s, view, name, env), NormalizeDocument(Saved(s.layout), env.configure, env.allocate).value;
      view in t.views.values && t.views.values[view].document == copy && t.views.values[view].id == view
  {
    hide NormalizeDocument, Saved, CanSave, Saving, IsShortened;
    SavingMeans(s, view, name, env);
  }

  // --- Storage -------------------------------------------------------------------------------------------

  /** The entry is read under its name cut to 60 characters. */
  ghost predicate IsReadView(id: string, raw: RawView, view: View, env: Environment)
    requires IsReadable(raw.document)
  {
    && view.id == id && Some(view.document) == NormalizeDocument(raw.document, env.configure, env.allocate)
    && if IsBlank(raw.name) then view.name == "Saved view" else IsShortened(raw.name, 60, view.name)
  }

  predicate IsWanted(id: string, raw: Option<RawView>) {
    raw.Some? && !("preset:" <= id)
  }

  predicate IsWantedAt(raws: Record<string, Option<RawView>>, k: nat, id: string) {
    k < |raws.keys| && raws.keys[k] == id && id in raws.values && IsWanted(id, raws.values[id])
  }

  ghost predicate IsReadAt(raws: Record<string, Option<RawView>>, k: nat, views: map<string, View>, env: Environment)
    requires AreReadable(raws) && k < |raws.keys| && IsWantedAt(raws, k, raws.keys[k])
  {
    raws.keys[k] in views && IsReadView(raws.keys[k], raws.values[raws.keys[k]].value, views[raws.keys[k]], env)
  }

  /** Of the first `n` entries, exactly those with an identifier of their own are read. */
  ghost predicate ViewsAreRead(raws: Record<string, Option<RawView>>, n: nat, views: map<string, View>, env: Environment)
    requires AreReadable(raws) && n <= |raws.keys|
  {
    && (forall id :: id in views <==> exists k :: 0 <= k < n && IsWantedAt(raws, k, id))
    && forall k :: 0 <= k < n && IsWantedAt(raws, k, raws.keys[k]) ==> IsReadAt(raws, k, views, env)
  }

  lemma {:induction false} WantedIsKept(id: string, raw: Option<RawView>)
    ensures IsKept(id, raw) <==> IsWanted(id, raw)
  {
    if |id| >= 7 {
      assert id[..7] == "preset:" <==> "preset:" <= id;
    }
  }

  lemma {:induction false} StoredNameMeans(name: string)
    ensures if IsBlank(name) then StoredName(name) == "Saved view" else IsShortened(name, 60, StoredName(name))
  {
    hide IsShortened, IsBlank;
    NameMeans(name);
  }

  lemma {:induction false} EntryIsRead(raws: Record<string, Option<RawView>>, k: nat, env: Environment)
    requires AreReadable(raws) && k < |raws.keys| && IsWantedAt(raws, k, raws.keys[k])
    requires HydratedViews(raws, k + 1, env).Some?
    ensures IsReadAt(raws, k, HydratedViews(raws, k + 1, env).value.values, env)
  {
    hide NormalizeDocument, StoredName, IsShortened, IsBlank;
    var id := raws.keys[k];
    WantedIsKept(id, raws.values[id]);
    StoredNameMeans(raws.values[id].value.name);
  }

  lemma {:induction false} OneMoreEntry(raws: Record<string, Option<RawView>>, n: nat, env: Environment)
    requires AreReadable(raws) && 0 < n <= |raws.keys| && HydratedViews(raws, n, env).Some?
    ensures HydratedViews(raws, n - 1, env).Some?
    ensures var before, after := HydratedViews(raws, n - 1, env).value.values, HydratedViews(raws, n, env).value.values;
      && (forall id :: id in after <==> id in before || IsWantedAt(raws, n - 1, id))
      && forall id :: id in before && id != raws.keys[n - 1] ==> after[id] == before[id]
  {
    hide NormalizeDocument, StoredName, IsWanted, IsKept, IsReadable;
    WantedIsKept(raws.keys[n - 1], raws.values[raws.keys[n - 1]]);
  }

  lemma {:induction false} WantedViews(raws: Record<string, Option<RawView>>, n: nat, env: Environment)
    requires AreReadable(raws) && n <= |raws.keys| && HydratedViews(raws, n, env).Some?
    ensures forall id :: id in HydratedViews(raws, n, env).value.values <==> exists k :: 0 <= k < n && IsWantedAt(raws, k, id)
  {
    if n > 0 {
      OneMoreEntry(raws, n, env);
      WantedViews(raws, n - 1, env);
      hide HydratedViews, IsWantedAt;
    }
  }

  lemma {:induction false} EntriesAreRead(raws: Record<string, Option<RawView>>, n: nat, k: nat, env: Environment)
    requires AreReadable(raws) && k < n <= |raws.keys| && HydratedViews(raws, n, env).Some?
    requires IsWantedAt(raws, k, raws.keys[k])
    ensures IsReadAt(raws, k, HydratedViews(raws, n, env).value.values, env)
    decreases n
  {
    hide HydratedViews, IsWantedAt, IsReadView;
    if k == n - 1 {
      EntryIsRead(raws, k, env);
    } else {
      OneMoreEntry(raws, n, env);
      EntriesAreRead(raws, n - 1, k, env);
      assert raws.keys[k] != raws.keys[n - 1];
    }
  }

  /** Of the entries that come first in storage, exactly those with an identifier of their own become views. */
  lemma {:induction false} ViewsAreReadBack(raws: Record<string, Option<RawView>>, n: nat, env: Environment)
    requires AreReadable(raws) && n <= |raws.keys| && HydratedViews(raws, n, env).Some?
    ensures ViewsAreRead(raws, n, HydratedViews(raws, n, env).value.values, env)
  {
    hide HydratedViews, IsReadAt, IsWantedAt, AreReadable;
    WantedViews(raws, n, env);
    forall k | 0 <= k < n && IsWantedAt(raws, k, raws.keys[k])
      ensures IsReadAt(raws, k, HydratedViews(raws, n, env).value.values, env)
    {
      EntriesAreRead(raws, n, k, env);
    }
  }

  /** The stored order, without what no longer exists, and then what it does not mention. */
  lemma {:induction false} ListingMeans(before: seq<string>, id: string, after: seq<string>, known: map<string, View>)
    ensures Listed([], known) == []
    ensures Listed(before + [id] + after, known)
            == Listed(before, known) + (if id in known then [id] else []) + Listed(after, known)
  {
    var whole := before + [id] + after;
    if after == [] {
      assert whole[..|whole| - 1] == before;
    } else {
      assert whole[..|whole| - 1] == before + [id] + after[..|after| - 1];
      ListingMeans(before, id, after[..|after| - 1], known);
    }
  }

  lemma {:induction false} AppendingMeans(before: seq<string>, id: string, after: seq<string>, listed: seq<string>)
    ensures Unlisted([], listed) == []
    ensures Unlisted(before + [id] + after, listed)
            == Unlisted(before, listed) + (if id in listed then [] else [id]) + Unlisted(after, listed)
  {
    var whole := before + [id] + after;
    if after == [] {
      assert whole[..|whole| - 1] == before;
    } else {
      assert whole[..|whole| - 1] == before + [id] + after[..|after| - 1];
      AppendingMeans(before, id, after[..|after| - 1], listed);
    }
  }

  /** What was stored comes back: the layout normalised, whether it was
      edited, up to twenty views, and its source unless that view has gone. Nothing does if a document cannot be read. */
  lemma {:induction false} HydratingMeans(raw: RawState, env: Environment)
    requires IsReadable(raw.active) && AreReadable(raw.views)
    ensures var n := if |raw.views.keys| <= 20 then |raw.views.keys| else 20;
      match Hydrated(raw, env)
      case None => HydratedViews(raw.views, n, env).None? || NormalizeDocument(raw.active, env.configure, env.allocate).None?
      case Some(t) =>
        && Some(t.layout) == NormalizeDocument(raw.active, env.configure, env.allocate) && t.dirty == raw.dirty
        && ViewsAreRead(raw.views, n, t.views.values, env)
        && t.viewOrder == Listed(raw.order, t.views.values) + Unlisted(t.views.keys, Listed(raw.order, t.views.values))
        && t.source == match raw.source
                       case Some(OfView(view)) => if view in t.views.values then raw.source else None
                       case _ => raw.source
  {
    hide NormalizeDocument, HydratedViews, ViewsAreRead, Listed, Unlisted;
    ReadableKeys(raw.views);
    var n := if |raw.views.keys| <= 20 then |raw.views.keys| else 20;
    if HydratedViews(raw.views, n, env).Some? {
      ViewsAreReadBack(raw.views, n, env);
    }
  }
}
