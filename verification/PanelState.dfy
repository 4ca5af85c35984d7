/** The state of the layout store, and how it is read from storage. */
module PanelState {
  import opened Outcomes
  import opened Records
  import opened PanelTypes
  import O = PanelOperations
  import opened PanelPresets
  import opened PanelNormalization

  datatype SourceView = OfPreset(preset: PresetId) | OfView(view: string)

  datatype View = View(id: string, name: string, document: Document)

  datatype State = State(
    layout: Document, source: Option<SourceView>, dirty: bool, views: Record<string, View>, viewOrder: seq<string>)

  /** What lies outside the layout: the device allocator and the settings normaliser. */
  datatype Environment = Environment(allocate: O.Allocator, configure: Configurer)

  /** A view as stored, after migration of its document. */
  datatype RawView = RawView(name: string, document: RawDocument)

  /** A state as stored; a view without a name counts as none. */
  datatype RawState = RawState(
    active: RawDocument, source: Option<SourceView>, dirty: bool, views: Record<string, Option<RawView>>, order: seq<string>)

  /** The document's table of instances is an object's. */
  ghost predicate IsReadable(raw: RawDocument) {
    raw.RawDocument? ==> raw.instances.Valid()
  }

  ghost predicate AreReadable(raws: Record<string, Option<RawView>>) {
    raws.Valid() && forall id :: id in raws.values && raws.values[id].Some? ==> IsReadable(raws.values[id].value.document)
  }

  /** Identifiers that name presets name no saved view. */
  predicate NamesPreset(id: string) {
    |id| >= 7 && id[..7] == "preset:"
  }

  function StoredName(name: string): string {
    var trimmed := O.Take(O.Trim(name), 60);
    if trimmed == "" then "Saved view" else trimmed
  }

  predicate IsKept(id: string, raw: Option<RawView>) {
    raw.Some? && !NamesPreset(id)
  }

  /** The views of the first `n` entries. */
  function HydratedViews(raws: Record<string, Option<RawView>>, n: nat, env: Environment): (r: Option<Record<string, View>>)
    requires AreReadable(raws) && n <= |raws.keys|
    ensures r.Some? ==> r.value.Valid() && |r.value.keys| <= n
    ensures r.Some? ==> forall id :: id in r.value.values ==> r.value.values[id].id == id
  {
    if n == 0 then Some(Empty())
    else
      match HydratedViews(raws, n - 1, env)
      case None => None
      case Some(before) =>
        var id := raws.keys[n - 1];
        var raw := raws.values[id];
        if !IsKept(id, raw) then Some(before)
        else
          match NormalizeDocument(raw.value.document, env.configure, env.allocate)
          case None => None
          case Some(document) => Some(before.Set(id, View(id, StoredName(raw.value.name), document)))
  }

  /** The stored order, as far as its views exist; repetitions stay. */
  function Listed(order: seq<string>, known: map<string, View>): seq<string> {
    if order == [] then []
    else
      var id := order[|order| - 1];
      Listed(order[..|order| - 1], known) + if id in known then [id] else []
  }

  function Unlisted(ids: seq<string>, listed: seq<string>): seq<string> {
    if ids == [] then []
    else
      var id := ids[|ids| - 1];
      Unlisted(ids[..|ids| - 1], listed) + if id in listed then [] else [id]
  }

  function OrderOf(order: seq<string>, views: Record<string, View>): seq<string> {
    Listed(order, views.values) + Unlisted(views.keys, Listed(order, views.values))
  }

  function KeptSource(source: Option<SourceView>, views: map<string, View>): Option<SourceView> {
    if source.Some? && source.value.OfView? && source.value.view !in views then None else source
  }

  /** The state read from storage; none if a document cannot be normalised. */
  function Hydrated(raw: RawState, env: Environment): Option<State>
    requires IsReadable(raw.active) && AreReadable(raw.views)
  {
    match HydratedViews(raw.views, Within(|raw.views.keys|, MAX_SAVED_PANEL_VIEWS), env)
    case None => None
    case Some(views) =>
      match NormalizeDocument(raw.active, env.configure, env.allocate)
      case None => None
      case Some(layout) =>
        Some(State(layout, KeptSource(raw.source, views.values), raw.dirty, views, OrderOf(raw.order, views)))
  }

  // --- Saved views ------------------------------------------------------------------------------

  /** Saved views are listed once each, at most twenty of them. */
  ghost predicate ViewsOk(s: State) {
    && s.views.Valid()
    && Distinct(s.viewOrder) && (forall v :: v in s.viewOrder <==> v in s.views.values)
    && |s.viewOrder| <= MAX_SAVED_PANEL_VIEWS
    && forall v :: v in s.views.values ==> s.views.values[v].id == v
  }

  lemma {:induction false} ListedElements(order: seq<string>, known: map<string, View>)
    ensures forall id :: id in Listed(order, known) <==> id in order && id in known
  {
    if order != [] {
      ListedElements(order[..|order| - 1], known);
      assert order == order[..|order| - 1] + [order[|order| - 1]];
    }
  }

  lemma {:induction false} UnlistedElements(ids: seq<string>, listed: seq<string>)
    ensures forall id :: id in Unlisted(ids, listed) <==> id in ids && id !in listed
    ensures Distinct(ids) ==> Distinct(Unlisted(ids, listed))
  {
    if ids != [] {
      var front := ids[..|ids| - 1];
      UnlistedElements(front, listed);
      assert ids == front + [ids[|ids| - 1]];
    }
  }

  lemma {:induction false} DistinctElements(ids: seq<string>)
    ensures |set id | id in ids| <= |ids|
    ensures Distinct(ids) ==> |set id | id in ids| == |ids|
  {
    if ids != [] {
      var front, last := ids[..|ids| - 1], ids[|ids| - 1];
      DistinctElements(front);
      assert (set id | id in ids) == (set id | id in front) + {last};
      assert Distinct(ids) ==> last !in front;
    }
  }

  lemma {:induction false} SameElementsSameLength(a: seq<string>, b: seq<string>)
    requires Distinct(a) && forall id :: id in a <==> id in b
    ensures |a| <= |b|
  {
    DistinctElements(a);
    DistinctElements(b);
    assert (set id | id in a) == (set id | id in b);
  }

  lemma {:induction false} DistinctBoth(a: seq<string>, b: seq<string>)
    requires Distinct(b) && forall id :: id in b ==> id !in a
    ensures Distinct(a + b) <==> Distinct(a)
  {
    if Distinct(a + b) {
      forall i, j | 0 <= i < j < |a|
        ensures a[i] != a[j]
      {
        assert (a + b)[i] != (a + b)[j];
      }
    }
    if Distinct(a) {
      forall i, j | 0 <= i < j < |a + b|
        ensures (a + b)[i] != (a + b)[j]
      {
        assert i >= |a| ==> (a + b)[i] == b[i - |a|];
        assert j >= |a| ==> (a + b)[j] == b[j - |a|] && (a + b)[j] in b;
        assert i < |a| ==> (a + b)[i] in a;
      }
    }
  }

  /** Views read from storage are listed once each exactly if the stored order repeats no view that exists. */
  lemma {:induction false} HydrationListsOnceExactly(raw: RawState, env: Environment)
    requires IsReadable(raw.active) && AreReadable(raw.views) && Hydrated(raw, env).Some?
    ensures ViewsOk(Hydrated(raw, env).value) <==> Distinct(Listed(raw.order, Hydrated(raw, env).value.views.values))
  {
    hide NormalizeDocument, Distinct, HydratedViews, IsReadable;
    var s := Hydrated(raw, env).value;
    var listed := Listed(raw.order, s.views.values);
    ListedElements(raw.order, s.views.values);
    UnlistedElements(s.views.keys, listed);
    DistinctBoth(listed, Unlisted(s.views.keys, listed));
    if Distinct(s.viewOrder) {
      SameElementsSameLength(s.viewOrder, s.views.keys);
    }
  }

  // --- Documents ------------------------------------------------------------------------------------

  /** The layout and every saved one. */
  ghost predicate AllCore(s: State) {
    Core(s.layout) && forall v :: v in s.views.values ==> Core(s.views.values[v].document)
  }

  lemma {:induction false} HydratedViewsAreCore(raws: Record<string, Option<RawView>>, n: nat, env: Environment)
    requires AreReadable(raws) && n <= |raws.keys| && KeepsKind(env.configure) && HydratedViews(raws, n, env).Some?
    ensures forall v :: v in HydratedViews(raws, n, env).value.values ==>
              Core(HydratedViews(raws, n, env).value.values[v].document)
  {
    hide Core, NormalizeDocument, StoredName, IsKept, InvariantErrors;
    if n > 0 {
      HydratedViewsAreCore(raws, n - 1, env);
      var raw := raws.values[raws.keys[n - 1]];
      if IsKept(raws.keys[n - 1], raw) {
        KeptIsSome(raws.keys[n - 1], raw);
        NormalizedIsCore(raw.value.document, env.configure, env.allocate);
      }
    }
  }

  lemma {:induction false} KeptIsSome(id: string, raw: Option<RawView>)
    requires IsKept(id, raw)
    ensures raw.Some?
  {
  }

  /** Whatever was stored, the layout and all views read from it satisfy the core invariant. */
  lemma {:induction false} HydratedIsCore(raw: RawState, env: Environment)
    requires IsReadable(raw.active) && AreReadable(raw.views) && KeepsKind(env.configure) && Hydrated(raw, env).Some?
    ensures AllCore(Hydrated(raw, env).value)
  {
    hide Core, NormalizeDocument, HydratedViews, InvariantErrors, OrderOf, KeptSource, AreReadable;
    HydratedViewsAreCore(raw.views, Within(|raw.views.keys|, MAX_SAVED_PANEL_VIEWS), env) by { ReadableKeys(raw.views); }
    NormalizedIsCore(raw.active, env.configure, env.allocate);
  }

  lemma {:induction false} ReadableKeys(raws: Record<string, Option<RawView>>)
    requires AreReadable(raws)
    ensures raws.Valid()
  {
  }
}
