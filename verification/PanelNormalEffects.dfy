/** What normalising makes of any stored layout document, part by part. */
module PanelNormalEffects {
  import opened Outcomes
  import opened Records
  import opened PanelTypes
  import opened PanelOperations
  import opened PanelInvariant
  import opened PanelReducers
  import opened PanelPresets
  import opened PanelNormalization
  import opened PanelEffects
  import opened PanelColumnEffects
  import opened PanelRestoring

  // --- Placement -------------------------------------------------------------------------------------

  /** Exactly the wanted identifiers of the list, each once, in the order in which the list first mentions them. */
  ghost predicate AreFirstMentions(r: seq<PanelId>, ids: seq<PanelId>, wanted: set<PanelId>) {
    && Distinct(r)
    && (forall id :: id in r <==> id in ids && id in wanted)
    && AreInOrder(r, ids)
  }

  ghost predicate AreInOrder(r: seq<PanelId>, ids: seq<PanelId>) {
    forall a, b :: 0 <= a < b < |r| ==> IsMentionedFirst(ids, r[a], r[b])
  }

  predicate IsMentionedFirst(ids: seq<PanelId>, x: PanelId, y: PanelId) {
    exists i :: 0 <= i < |ids| && ids[i] == x && y !in ids[..i]
  }

  lemma {:induction false} TakingIsFirstMentions(ids: seq<PanelId>, known: set<PanelId>, seen: seq<PanelId>)
    ensures AreFirstMentions(TakeNew(ids, known, seen), ids, set id | id in known && id !in seen)
  {
    TakeNewElements(ids, known, seen);
    TakingKeepsOrder(ids, known, seen);
    hide TakeNew, IsMentionedFirst, Distinct;
  }

  lemma {:induction false} TakingKeepsOrder(ids: seq<PanelId>, known: set<PanelId>, seen: seq<PanelId>)
    ensures AreInOrder(TakeNew(ids, known, seen), ids)
  {
    if ids != [] {
      var rest, last := ids[..|ids| - 1], ids[|ids| - 1];
      var front, r := TakeNew(rest, known, seen), TakeNew(ids, known, seen);
      TakingKeepsOrder(rest, known, seen);
      TakeNewElements(rest, known, seen);
      assert AreInOrder(front, rest);
      hide TakeNew, IsMentionedFirst;
      forall a, b | 0 <= a < b < |r|
        ensures IsMentionedFirst(ids, r[a], r[b])
      {
        assert r[a] == front[a];
        if b < |front| {
          MentionedLonger(ids, front[a], front[b]);
        } else {
          assert front[a] in rest;
          LastIsMentionedLast(ids, front[a]);
        }
      }
    }
  }

  lemma {:induction false} MentionedLonger(ids: seq<PanelId>, x: PanelId, y: PanelId)
    requires ids != [] && IsMentionedFirst(ids[..|ids| - 1], x, y)
    ensures IsMentionedFirst(ids, x, y)
  {
    var rest := ids[..|ids| - 1];
    var i :| 0 <= i < |rest| && rest[i] == x && y !in rest[..i];
    assert ids[..i] == rest[..i];
  }

  lemma {:induction false} LastIsMentionedLast(ids: seq<PanelId>, x: PanelId)
    requires ids != [] && x in ids[..|ids| - 1] && ids[|ids| - 1] !in ids[..|ids| - 1]
    ensures IsMentionedFirst(ids, x, ids[|ids| - 1])
  {
    var rest := ids[..|ids| - 1];
    var i :| 0 <= i < |rest| && rest[i] == x;
    assert forall k :: 0 <= k < i ==> ids[..i][k] == rest[k];
  }

  /** Missing sizes count as one, and sizes below a tenth as a tenth. */
  function LeastSize(given: map<PanelId, real>, id: PanelId): real {
    if id !in given then 1.0 else if given[id] < 0.1 then 0.1 else given[id]
  }

  /** The column's sizes are to each other as the given ones, once raised. */
  ghost predicate IsRescaled(column: Column, given: map<PanelId, real>) {
    forall a, b :: a in column.panelIds && b in column.panelIds ==>
      && a in column.sizes.values && b in column.sizes.values
      && SameRatio(column.sizes.values[a], column.sizes.values[b], LeastSize(given, a), LeastSize(given, b))
  }

  lemma {:induction false} RescalingMeans(column: Column)
    ensures var t := WithNormalSizes(column);
      && t == column.(sizes := t.sizes)
      && (Distinct(column.panelIds) ==> IsRescaled(t, column.sizes.values) && Sized(t))
  {
    hide NormalizedColumn, SameRatio, Distinct, Sized;
    var raised := column.(sizes := Raised(column.panelIds, column.sizes.values));
    NormalSizesKeepPanels(column);
    NormalizedHasShares(raised);
    assert forall a :: a in column.panelIds ==> GivenSize(raised.sizes, a) == LeastSize(column.sizes.values, a);
  }

  /** One of the first `n` columns mentions the panel. */
  predicate IsMentioned(raws: seq<RawColumn>, n: nat, id: PanelId)
    requires n <= |raws|
  {
    exists i :: 0 <= i < n && id in raws[i].panelIds
  }

  /** The panels no earlier column mentions, in order, with the stored identifier, width and proportions. */
  ghost predicate ReadsAs(raws: seq<RawColumn>, i: nat, count: nat, known: set<PanelId>, column: Column)
    requires i < |raws| && count > 0
  {
    && column.id == (if raws[i].id.Some? then raws[i].id.value else Numbered(i + 1))
    && column.width == (if raws[i].width.Some? then raws[i].width.value else 100.0 / count as real)
    && AreFirstMentions(column.panelIds, raws[i].panelIds, set id | id in known && !IsMentioned(raws, i, id))
    && IsRescaled(column, raws[i].sizes) && Sized(column)
  }

  ghost predicate AllReadAs(raws: seq<RawColumn>, count: nat, known: set<PanelId>, columns: seq<Column>)
    requires count > 0
  {
    |columns| == |raws| && forall i :: 0 <= i < |raws| ==> ReadsAs(raws, i, count, known, columns[i])
  }

  lemma {:induction false} MentionedInFront(raws: seq<RawColumn>, i: nat, id: PanelId)
    requires i < |raws|
    ensures IsMentioned(raws[..|raws| - 1], i, id) <==> IsMentioned(raws, i, id)
    ensures IsMentioned(raws, |raws|, id)
            <==> IsMentioned(raws, |raws| - 1, id) || id in raws[|raws| - 1].panelIds
  {
  }

  lemma {:induction false} ReadsAsInFront(raws: seq<RawColumn>, i: nat, count: nat, known: set<PanelId>, column: Column)
    requires i < |raws| - 1 && count > 0 && ReadsAs(raws[..|raws| - 1], i, count, known, column)
    ensures ReadsAs(raws, i, count, known, column)
  {
    hide AreFirstMentions, IsRescaled, Sized, IsMentioned;
    forall id
      ensures IsMentioned(raws[..|raws| - 1], i, id) <==> IsMentioned(raws, i, id)
    {
      MentionedInFront(raws, i, id);
    }
    assert (set id | id in known && !IsMentioned(raws[..|raws| - 1], i, id))
        == set id | id in known && !IsMentioned(raws, i, id);
  }

  lemma {:induction false} ColumnReadsAs(raw: RawColumn, raws: seq<RawColumn>, count: nat, known: set<PanelId>, seen: seq<PanelId>)
    requires raws != [] && raw == raws[|raws| - 1] && count > 0
    requires forall id :: id in seen <==> id in known && IsMentioned(raws, |raws| - 1, id)
    ensures ReadsAs(raws, |raws| - 1, count, known,
                    NormalColumn(raw, |raws| - 1, count, TakeNew(raw.panelIds, known, seen)))
  {
    hide IsRescaled, Sized, IsMentioned, AreFirstMentions, TakeNew, WithNormalSizes, Distinct;
    var ids := TakeNew(raw.panelIds, known, seen);
    TakingIsFirstMentions(raw.panelIds, known, seen);
    TakeNewElements(raw.panelIds, known, seen);
    assert (set id | id in known && id !in seen) == set id | id in known && !IsMentioned(raws, |raws| - 1, id);
    RescalingMeans(Column(raw.id.GetOr(Numbered(|raws|)), raw.width.GetOr(100.0 / count as real), ids, Record([], raw.sizes)));
  }

  lemma {:induction false} PanelsOfNext(raws: seq<RawColumn>, count: nat, known: set<PanelId>)
    requires raws != [] && count > 0
    ensures var rest, raw := raws[..|raws| - 1], raws[|raws| - 1];
      var front := NormalColumns(rest, count, known);
      ColumnPanels(NormalColumns(raws, count, known))
      == ColumnPanels(front) + TakeNew(raw.panelIds, known, ColumnPanels(front))
  {
    hide TakeNew, NormalColumn, ColumnPanels;
    var rest, raw := raws[..|raws| - 1], raws[|raws| - 1];
    var front := NormalColumns(rest, count, known);
    var ids := TakeNew(raw.panelIds, known, ColumnPanels(front));
    var column := NormalColumn(raw, |front|, count, ids);
    NormalColumnKeepsIds(raw, |front|, count, ids);
    PanelsInOrder(front, column, []);
    assert front + [column] + [] == NormalColumns(raws, count, known);
  }

  /** The columns hold the known panels that are mentioned. */
  lemma {:induction false} MentionedArePlaced(raws: seq<RawColumn>, count: nat, known: set<PanelId>)
    requires count > 0
    ensures forall id :: id in ColumnPanels(NormalColumns(raws, count, known)) <==> id in known && IsMentioned(raws, |raws|, id)
  {
    hide IsMentioned, TakeNew;
    if raws == [] {
      NothingIsMentioned();
    } else {
      var rest, raw := raws[..|raws| - 1], raws[|raws| - 1];
      var front := ColumnPanels(NormalColumns(rest, count, known));
      MentionedArePlaced(rest, count, known);
      PanelsOfNext(raws, count, known);
      TakeNewElements(raw.panelIds, known, front);
      hide NormalColumns, ColumnPanels;
      forall id
        ensures id in ColumnPanels(NormalColumns(raws, count, known)) <==> id in known && IsMentioned(raws, |raws|, id)
      {
        MentionedInFront(raws, |raws| - 1, id);
      }
    }
  }

  lemma {:induction false} ColumnsAreRead(raws: seq<RawColumn>, count: nat, known: set<PanelId>)
    requires count > 0
    ensures AllReadAs(raws, count, known, NormalColumns(raws, count, known))
  {
    hide ReadsAs, IsMentioned, TakeNew, NormalColumn, ColumnPanels;
    if raws != [] {
      var rest, raw := raws[..|raws| - 1], raws[|raws| - 1];
      var front := NormalColumns(rest, count, known);
      ColumnsAreRead(rest, count, known);
      MentionedArePlaced(rest, count, known);
      forall id
        ensures id in ColumnPanels(front) <==> id in known && IsMentioned(raws, |raws| - 1, id)
      {
        MentionedInFront(raws, |raws| - 1, id);
      }
      ColumnReadsAs(raw, raws, count, known, ColumnPanels(front));
      forall i | 0 <= i < |rest|
        ensures ReadsAs(raws, i, count, known, front[i])
      {
        ReadsAsInFront(raws, i, count, known, front[i]);
      }
    }
  }

  lemma {:induction false} NothingIsMentioned()
    ensures forall id :: !IsMentioned([], 0, id)
  {
  }

  function EmptyColumn(i: nat, count: nat): Column
    requires count > 0
  {
    Column(Numbered(i + 1), 100.0 / count as real, [], Empty())
  }

  lemma {:induction false} PaddingMeans(columns: seq<Column>, count: nat)
    requires |columns| <= count && count > 0
    ensures var t := Padded(columns, count);
      && |t| == count && (forall i :: 0 <= i < |columns| ==> t[i] == columns[i])
      && forall i :: |columns| <= i < count ==> t[i] == EmptyColumn(i, count)
    decreases count - |columns|
  {
    hide EmptyColumn;
    if |columns| < count {
      PaddingNext(|columns|, count);
      PaddingMeans(columns + [EmptyColumn(|columns|, count)], count);
    }
  }

  lemma {:induction false} PaddingNext(i: nat, count: nat)
    requires count > 0
    ensures EmptyColumn(i, count) == Column(Numbered(i + 1), 100.0 / count as real, [], Empty())
  {
  }

  function LeastWidth(width: real): real {
    if width < 0.1 then 0.1 else width
  }

  /** The widths are to each other as the given ones, once raised, and make up 100. */
  ghost predicate AreRewidened(columns: seq<Column>, given: seq<Column>) {
    && |columns| == |given|
    && (forall i, j :: 0 <= i < |given| && 0 <= j < |given| ==>
          SameRatio(columns[i].width, columns[j].width, LeastWidth(given[i].width), LeastWidth(given[j].width)))
    && WidthTotal(columns) == 100.0
  }

  lemma {:induction false} RewideningMeans(columns: seq<Column>)
    requires columns != []
    ensures AreRewidened(Rewidened(columns), columns)
    ensures SameButWidths(columns, Rewidened(columns))
  {
    hide Share, BroadTotal, SameRatio, WidthTotal;
    var t, total := Rewidened(columns), BroadTotal(columns);
    RewidenedTotal(columns, total, t);
    WholeShare(total);
    forall i, j | 0 <= i < |columns| && 0 <= j < |columns|
      ensures SameRatio(t[i].width, t[j].width, LeastWidth(columns[i].width), LeastWidth(columns[j].width))
    {
      SameProportion(LeastWidth(columns[i].width), LeastWidth(columns[j].width), total, t[i].width, t[j].width);
    }
  }

  /** The columns as read, before the first takes in the panels that no list places. */
  ghost predicate AreFirstRead(raw: RawDocument, known: set<PanelId>, first: seq<Column>)
    requires raw.RawDocument? && first != []
  {
    && (forall i :: 0 <= i < |raw.columns| && i < |first| ==> ReadsAs(raw.columns, i, |first|, known, first[i]))
    && forall i :: |raw.columns| <= i < |first| ==> first[i] == EmptyColumn(i, |first|)
  }

  /** As many columns are read as there may be. */
  function ReadColumns(raw: RawDocument, count: nat): (n: nat)
    requires raw.RawDocument?
    ensures n <= |raw.columns|
  {
    if |raw.columns| <= count then |raw.columns| else count
  }

  /** A panel is where the layout first mentions it, columns before the floating list;
      what is mentioned nowhere goes to the end of the first column. */
  ghost predicate ArePlaced(
    raw: RawDocument, known: seq<PanelId>, columns: seq<Column>, floating: seq<PanelId>, first: seq<Column>, orphans: seq<PanelId>)
    requires raw.RawDocument? && columns != []
  {
    var n := ReadColumns(raw, |columns|);
    && |first| == |columns| && AreFirstRead(raw, (set id | id in known), first)
    && AreFirstMentions(floating, raw.floating, set id | id in known && !IsMentioned(raw.columns, n, id))
    && AreFirstMentions(orphans, known,
                        set id | id in known && !IsMentioned(raw.columns, n, id) && id !in raw.floating)
    && AreRewidened(columns, first)
    && forall i :: 0 <= i < |columns| ==> Takes(first[i], if i == 0 then orphans else [], columns[i])
  }

  /** The column with more panels below its own, in proportion to what the sizes then are. */
  ghost predicate Takes(before: Column, orphans: seq<PanelId>, after: Column) {
    && after == before.(panelIds := before.panelIds + orphans, sizes := after.sizes, width := after.width)
    && (Distinct(after.panelIds) ==> IsRescaled(after, before.sizes.values) && Sized(after))
  }

  lemma {:induction false} ReadAsKept(raws: seq<RawColumn>, n: nat, i: nat, count: nat, known: set<PanelId>, column: Column)
    requires i < n <= |raws| && count > 0 && ReadsAs(raws[..n], i, count, known, column)
    ensures ReadsAs(raws, i, count, known, column)
    decreases |raws| - n
  {
    hide ReadsAs;
    if n == |raws| {
      assert raws[..n] == raws;
    } else {
      var more := raws[..n + 1];
      assert more[..|more| - 1] == raws[..n];
      ReadsAsInFront(more, i, count, known, column);
      ReadAsKept(raws, n + 1, i, count, known, column);
    }
  }

  lemma {:induction false} MentionedInKept(raws: seq<RawColumn>, n: nat)
    requires n <= |raws|
    ensures forall id :: IsMentioned(raws[..n], n, id) <==> IsMentioned(raws, n, id)
  {
  }

  lemma {:induction false} FirstColumns(raw: RawDocument, known: set<PanelId>, count: nat)
    requires raw.RawDocument? && count > 0
    ensures var n := ReadColumns(raw, count);
      var first := Padded(NormalColumns(raw.columns[..n], count, known), count);
      && |first| == count && AreFirstRead(raw, known, first)
      && forall id :: id in ColumnPanels(first) <==> id in known && IsMentioned(raw.columns, n, id)
  {
    hide ReadsAs, IsMentioned, EmptyColumn, NormalColumns, Padded, ColumnPanels;
    var n := ReadColumns(raw, count);
    var read := NormalColumns(raw.columns[..n], count, known);
    ColumnsAreRead(raw.columns[..n], count, known);
    MentionedArePlaced(raw.columns[..n], count, known);
    PaddingMeans(read, count);
    PaddedPanels(read, count);
    MentionedInKept(raw.columns, n);
    forall i | 0 <= i < n
      ensures ReadsAs(raw.columns, i, count, known, read[i])
    {
      ReadAsKept(raw.columns, n, i, count, known, read[i]);
    }
  }

  lemma {:induction false} SettlingMeans(first: seq<Column>, orphans: seq<PanelId>)
    requires first != []
    ensures var columns := Rewidened(Resized(Adopted(first, orphans)));
      && |columns| == |first| && AreRewidened(columns, first)
      && forall i :: 0 <= i < |first| ==> Takes(first[i], if i == 0 then orphans else [], columns[i])
  {
    hide WithNormalSizes, Rewidened, Distinct, IsRescaled, Sized, SameRatio, WidthTotal, LeastWidth;
    var adopted := Adopted(first, orphans);
    var resized := Resized(adopted);
    var columns := Rewidened(resized);
    RewideningMeans(resized);
    forall i | 0 <= i < |first|
      ensures resized[i].width == first[i].width
      ensures Takes(first[i], if i == 0 then orphans else [], columns[i])
    {
      RescalingMeans(adopted[i]);
      WideningKeepsSizes(resized[i], columns[i], first[i].sizes.values);
    }
  }

  lemma {:induction false} WideningKeepsSizes(before: Column, after: Column, given: map<PanelId, real>)
    requires after == before.(width := after.width)
    ensures IsRescaled(before, given) ==> IsRescaled(after, given)
    ensures Sized(before) ==> Sized(after)
  {
    hide SameRatio, LeastSize;
  }

  lemma {:induction false} PlacingMeans(raw: RawDocument, keys: seq<PanelId>, count: nat) returns (first: seq<Column>, orphans: seq<PanelId>)
    requires raw.RawDocument? && count > 0
    ensures var p := PlaceAll(raw, keys, count);
      ArePlaced(raw, keys, p.columns, p.floating, first, orphans)
  {
    hide ReadsAs, IsMentioned, EmptyColumn, NormalColumns, Padded, ColumnPanels, TakeNew, AreRewidened, Takes,
      AreFirstMentions, Rewidened, Adopted, Resized, AreFirstRead;
    var known := set id | id in keys;
    var n := ReadColumns(raw, count);
    var raws := if |raw.columns| <= count then raw.columns else raw.columns[..count];
    assert raws == raw.columns[..n];
    first := Padded(NormalColumns(raws, count, known), count);
    FirstColumns(raw, known, count);
    var floating := TakeNew(raw.floating, known, ColumnPanels(first));
    TakingIsFirstMentions(raw.floating, known, ColumnPanels(first));
    TakeNewElements(raw.floating, known, ColumnPanels(first));
    orphans := TakeNew(keys, known, ColumnPanels(first) + floating);
    TakingIsFirstMentions(keys, known, ColumnPanels(first) + floating);
    assert (set id | id in known && id !in ColumnPanels(first)) == set id | id in keys && !IsMentioned(raw.columns, n, id);
    assert (set id | id in known && id !in ColumnPanels(first) + floating)
        == set id | id in keys && !IsMentioned(raw.columns, n, id) && id !in raw.floating;
    SettlingMeans(first, orphans);
  }

  // --- Instances -------------------------------------------------------------------------------------

  /** The stored title without spaces at its ends, cut to 80 characters; the
      usual one of the kind if there is none or nothing but spaces. */
  ghost predicate IsTitle(title: string, raw: Option<string>, kind: Kind) {
    if raw.Some? && !AreSpaces(raw.value, 0, |raw.value|) then IsShortened(raw.value, 80, title)
    else title == DefaultTitle(kind)
  }

  lemma {:induction false} TitleMeans(raw: Option<string>, kind: Kind)
    ensures IsTitle(NormalTitle(raw, kind), raw, kind)
  {
    hide Trim, DefaultTitle, IsSpace, IsShortened, Take;
    if raw.Some? {
      ShorteningMeans(raw.value, 80);
      BlankExactly(raw.value);
    }
  }

  predicate HasKind(raws: Record<PanelId, RawInstance>, id: PanelId) {
    id in raws.values && raws.values[id].kind.Some?
  }

  /** The entry is read with the settings the normaliser gives it next to those in front of it. */
  ghost predicate IsReadFrom(raws: Record<PanelId, RawInstance>, k: nat, panel: Instance, configure: Configurer)
    requires raws.Valid() && k < |raws.keys|
  {
    var id := raws.keys[k];
    var raw := raws.values[id];
    && panel.id == id && raw.kind == Some(panel.kind) && IsTitle(panel.title, raw.title, panel.kind)
    && panel.minimized == raw.minimized
    && NormalInstances(raws, k, configure).Some?
    && configure(panel.kind, id, raw.settings, InstanceList(NormalInstances(raws, k, configure).value)) == Some(panel.config)
  }

  function RawRectOf(raw: RawInstance): Option<Rect> {
    match raw.rect
    case Some(rect) => Some(ClampRawRect(rect))
    case None => None
  }

  ghost predicate AreReadFrom(raws: Record<PanelId, RawInstance>, n: nat, values: map<PanelId, Instance>, configure: Configurer)
    requires raws.Valid() && n <= |raws.keys|
  {
    forall k :: 0 <= k < n && HasKind(raws, raws.keys[k]) ==>
      && raws.keys[k] in values && IsReadFrom(raws, k, values[raws.keys[k]], configure)
      && values[raws.keys[k]].rect == RawRectOf(raws.values[raws.keys[k]])
  }

  function OfKnownKind(raws: Record<PanelId, RawInstance>): set<PanelId> {
    set id | id in raws.values && HasKind(raws, id)
  }

  lemma {:induction false} TakingNext(ids: seq<PanelId>, n: nat, known: set<PanelId>)
    requires 0 < n <= |ids| && Distinct(ids)
    ensures TakeNew(ids[..n], known, [])
            == TakeNew(ids[..n - 1], known, []) + if ids[n - 1] in known then [ids[n - 1]] else []
  {
    assert ids[..n][..n - 1] == ids[..n - 1];
    TakeNewElements(ids[..n - 1], known, []);
    DistinctPrefix(ids, n);
  }

  lemma {:induction false} NextKey(raws: Record<PanelId, RawInstance>, n: nat, configure: Configurer)
    requires raws.Valid() && 0 < n <= |raws.keys| && NormalInstances(raws, n, configure).Some?
    ensures NormalInstances(raws, n - 1, configure).Some?
    ensures var before, id := NormalInstances(raws, n - 1, configure).value, raws.keys[n - 1];
      id !in before.keys ==>
        NormalInstances(raws, n, configure).value.keys == before.keys + if HasKind(raws, id) then [id] else []
  {
    hide InstanceList, NormalInstance;
  }

  /** The entries of a known kind are kept, in their order; the others are dropped. */
  lemma {:induction false} KeysAreRead(raws: Record<PanelId, RawInstance>, n: nat, configure: Configurer)
    requires raws.Valid() && n <= |raws.keys| && NormalInstances(raws, n, configure).Some?
    ensures NormalInstances(raws, n, configure).value.keys == TakeNew(raws.keys[..n], OfKnownKind(raws), [])
  {
    if n == 0 {
      assert raws.keys[..0] == [];
    } else {
      NextKey(raws, n, configure);
      KeysAreRead(raws, n - 1, configure);
      hide NormalInstances, TakeNew, HasKind, Distinct;
      TakingNext(raws.keys, n, OfKnownKind(raws));
      TakeNewElements(raws.keys[..n - 1], OfKnownKind(raws), []);
      DistinctPrefix(raws.keys, n);
    }
  }

  lemma {:induction false} InstancesAreRead(raws: Record<PanelId, RawInstance>, n: nat, configure: Configurer)
    requires raws.Valid() && n <= |raws.keys| && NormalInstances(raws, n, configure).Some?
    ensures AreReadFrom(raws, n, NormalInstances(raws, n, configure).value.values, configure)
  {
    hide IsReadFrom, InstanceList, NormalInstance;
    if n > 0 {
      InstancesAreRead(raws, n - 1, configure);
      if HasKind(raws, raws.keys[n - 1]) {
        EntryIsRead(raws, n, configure);
      }
    }
  }

  /** Reading fails exactly if the normaliser has no settings for an entry it comes to. */
  lemma {:induction false} ReadingFailsExactly(raws: Record<PanelId, RawInstance>, n: nat, configure: Configurer)
    requires raws.Valid() && n <= |raws.keys|
    ensures NormalInstances(raws, n, configure).None? <==> exists k :: 0 <= k < n && LacksSettings(raws, k, configure)
  {
    hide InstanceList, NormalInstance;
    if n > 0 {
      ReadingFailsExactly(raws, n - 1, configure);
      assert NormalInstances(raws, n - 1, configure).Some? ==>
          (NormalInstances(raws, n, configure).None? <==> LacksSettings(raws, n - 1, configure));
      hide NormalInstances, LacksSettings;
      LackedLast(raws, n, configure);
    }
  }

  lemma {:induction false} LackedLast(raws: Record<PanelId, RawInstance>, n: nat, configure: Configurer)
    requires raws.Valid() && n > 0
    ensures (exists k :: 0 <= k < n && LacksSettings(raws, k, configure))
            <==> LacksSettings(raws, n - 1, configure) || exists k :: 0 <= k < n - 1 && LacksSettings(raws, k, configure)
  {
    hide LacksSettings;
  }

  ghost predicate LacksSettings(raws: Record<PanelId, RawInstance>, k: nat, configure: Configurer)
    requires raws.Valid()
  {
    && k < |raws.keys| && HasKind(raws, raws.keys[k]) && NormalInstances(raws, k, configure).Some?
    && var raw := raws.values[raws.keys[k]];
      configure(raw.kind.value, raws.keys[k], raw.settings, InstanceList(NormalInstances(raws, k, configure).value)).None?
  }

  lemma {:induction false} EntryIsRead(raws: Record<PanelId, RawInstance>, n: nat, configure: Configurer)
    requires raws.Valid() && 0 < n <= |raws.keys| && NormalInstances(raws, n, configure).Some?
    requires HasKind(raws, raws.keys[n - 1])
    ensures raws.keys[n - 1] in NormalInstances(raws, n, configure).value.values
    ensures var panel := NormalInstances(raws, n, configure).value.values[raws.keys[n - 1]];
      IsReadFrom(raws, n - 1, panel, configure) && panel.rect == RawRectOf(raws.values[raws.keys[n - 1]])
  {
    hide InstanceList, NormalTitle, ClampRawRect, IsTitle;
    var raw := raws.values[raws.keys[n - 1]];
    TitleMeans(raw.title, raw.kind.value);
  }

  // --- The document ------------------------------------------------------------------------------------

  /** A panel that floats has a rectangle, what is missing of it filled in, within its bounds; others have none. */
  predicate IsSettledRect(rect: Option<Rect>, raw: Option<RawRect>, floats: bool) {
    if !floats then rect.None?
    else if raw.None? then rect == Some(Rect(32.0, 32.0, 520.0, 420.0))
    else
      var x := if raw.value.x.Some? then raw.value.x.value else 32.0;
      var y := if raw.value.y.Some? then raw.value.y.value else 32.0;
      var width := if raw.value.width.Some? then raw.value.width.value else 520.0;
      var height := if raw.value.height.Some? then raw.value.height.value else 420.0;
      rect == Some(ClampFloatingRect(Rect(x, y, width, height)))
  }

  lemma {:induction false} SettlingRect(raw: RawInstance, floats: bool)
    ensures IsSettledRect(SettledRect(RawRectOf(raw), floats), raw.rect, floats)
  {
  }

  /** At most 32 entries are read. */
  function ReadEntries(raw: RawDocument): (n: nat)
    requires raw.RawDocument?
    ensures n <= |raw.instances.keys| && n <= 32
  {
    if |raw.instances.keys| <= 32 then |raw.instances.keys| else 32
  }

  /** The panels are the entries read, each with its rectangle if it floats. */
  ghost predicate PanelsAreRead(raw: RawDocument, d: Document, configure: Configurer)
    requires raw.RawDocument? && raw.instances.Valid()
  {
    && AreFirstMentions(d.instances.keys, raw.instances.keys[..ReadEntries(raw)], OfKnownKind(raw.instances))
    && forall k :: 0 <= k < ReadEntries(raw) && HasKind(raw.instances, raw.instances.keys[k]) ==>
         var id := raw.instances.keys[k];
         && d.Has(id) && IsReadFrom(raw.instances, k, d.At(id), configure)
         && IsSettledRect(d.At(id).rect, raw.instances.values[id].rect, id in d.floating)
  }

  /** Focus and owner are kept if they name a panel and a terminal; another owner is the first terminal. */
  ghost predicate FocusIsRead(raw: RawDocument, d: Document)
    requires raw.RawDocument?
  {
    && d.focused == (if raw.focused.Some? && d.Has(raw.focused.value) then raw.focused else None)
    && if raw.owner.Some? && IsOfKind(d, raw.owner.value, Terminal) then d.owner == raw.owner else IsFirstOf(d, Terminal, d.owner)
  }

  /** The larger of the stored number and the least; the usual one if none is stored. */
  predicate IsCounter(stored: Option<int>, least: int, usual: int, counter: int) {
    if stored.None? then counter == (if usual < least then least else usual)
    else counter == if stored.value < least then least else stored.value
  }

  /** Whatever is stored, its panels, their places, sizes and widths, the
      rectangles, the focus, the owner and the sequences come back as far as they are usable. */
  lemma {:induction false} DocumentIsRead(raw: RawDocument, configure: Configurer, allocate: Allocator)
      returns (first: seq<Column>, orphans: seq<PanelId>)
    requires raw.RawDocument? && raw.instances.Valid()
    ensures var instances := NormalInstances(raw.instances, ReadEntries(raw), configure);
      instances.Some? && instances.value.keys != [] ==>
        && NormalizeDocument(raw, configure, allocate).Some?
        && var d := NormalizeDocument(raw, configure, allocate).value;
          && d.columns != [] && d.columnCount == |d.columns|
          && IsColumnCount(if raw.columnCount.Some? then raw.columnCount.value else |raw.columns|, |d.columns|)
          && PanelsAreRead(raw, d, configure)
          && ArePlaced(raw, d.instances.keys, d.columns, d.floating, first, orphans)
          && FocusIsRead(raw, d)
          && IsCounter(raw.nextInstance, 1, |d.instances.keys| + 1, d.nextInstance)
          && IsCounter(raw.nextColumn, |d.columns| + 1, |d.columns| + 1, d.nextColumn)
          && (raw.name.None? ==> d.name == "Workspace")
          && (raw.name.Some? ==> d.name <= raw.name.value && |d.name| == Within(|raw.name.value|, 80))
  {
    hide NormalInstances, PlaceAll, ArePlaced, PanelsAreRead, FocusIsRead, NormalOwner, Preset, DefinitionOf, SettledRect;
    first, orphans := [], [];
    var instances := NormalInstances(raw.instances, ReadEntries(raw), configure);
    if instances.Some? && instances.value.keys != [] {
      var placed := PlaceAll(raw, instances.value.keys, CountOf(raw));
      first, orphans := PlacingMeans(raw, instances.value.keys, CountOf(raw));
      var d := Assemble(raw, instances.value);
      SettledIsValid(instances.value, placed.floating);
      PanelsSettle(raw, d, configure);
      FocusSettles(raw, d, instances.value);
    }
  }

  lemma {:induction false} PanelsSettle(raw: RawDocument, d: Document, configure: Configurer)
    requires raw.RawDocument? && raw.instances.Valid()
    requires NormalInstances(raw.instances, ReadEntries(raw), configure).Some?
    requires d.instances == Settled(NormalInstances(raw.instances, ReadEntries(raw), configure).value, d.floating)
    ensures PanelsAreRead(raw, d, configure)
  {
    hide NormalInstances, AreFirstMentions, TakeNew, IsSettledRect, SettledRect;
    var n := ReadEntries(raw);
    var keys := raw.instances.keys[..n];
    KeysAreRead(raw.instances, n, configure);
    InstancesAreRead(raw.instances, n, configure);
    TakingIsFirstMentions(keys, OfKnownKind(raw.instances), []);
    assert (set id | id in OfKnownKind(raw.instances) && id !in []) == OfKnownKind(raw.instances);
    forall k | 0 <= k < n && HasKind(raw.instances, raw.instances.keys[k])
      ensures var id := raw.instances.keys[k];
        && d.Has(id) && IsReadFrom(raw.instances, k, d.At(id), configure)
        && IsSettledRect(d.At(id).rect, raw.instances.values[id].rect, id in d.floating)
    {
      var id := raw.instances.keys[k];
      SettlingRect(raw.instances.values[id], id in d.floating);
    }
  }

  lemma {:induction false} FocusSettles(raw: RawDocument, d: Document, instances: Record<PanelId, Instance>)
    requires raw.RawDocument? && d.instances == Settled(instances, d.floating)
    requires d.focused == if raw.focused.Some? && raw.focused.value in instances.values then raw.focused else None
    requires d.owner == NormalOwner(raw.owner, d.instances)
    ensures FocusIsRead(raw, d)
  {
    hide SettledRect, IsFirstOf, FirstOfKind;
    FirstInTable(d, Terminal);
  }
}
