/** Every reducer keeps the layout invariant. */
module PanelInvariant {
  import opened Outcomes
  import opened Records
  import opened PanelTypes
  import opened PanelOperations

  // --- Sizes --------------------------------------------------------------------------------

  lemma {:induction false} ShareAdds(x: real, y: real, total: real)
    requires total > 0.0
    ensures Share(x, total) + Share(y, total) == Share(x + y, total)
  {
    assert x / total + y / total == (x + y) / total;
  }

  lemma {:induction false} SharePositive(x: real, total: real)
    requires x > 0.0 && total > 0.0
    ensures Share(x, total) > 0.0
  {
  }

  lemma {:induction false} WholeShare(total: real)
    requires total > 0.0
    ensures Share(total, total) == 100.0
  {
  }

  lemma {:induction false} TotalIgnores(keys: seq<PanelId>, values: map<PanelId, real>, k: PanelId, v: real)
    requires (forall x :: x in keys ==> x in values) && k !in keys
    ensures TotalOf(keys, values[k := v]) == TotalOf(keys, values)
  {
    if keys != [] {
      TotalIgnores(keys[..|keys| - 1], values, k, v);
    }
  }

  lemma {:induction false} NextWeight(ids: seq<PanelId>, sizes: Record<PanelId, real>)
    requires ids != []
    ensures TotalWeight(ids, sizes) == TotalWeight(ids[..|ids| - 1], sizes) + Weight(sizes, ids[|ids| - 1])
  {
  }

  lemma {:induction false} NoWeight(sizes: Record<PanelId, real>)
    ensures TotalWeight([], sizes) == 0.0
  {
  }

  /** The shares of distinct panels, in their order. */
  ghost predicate SharesTable(r: Record<PanelId, real>, ids: seq<PanelId>, sizes: Record<PanelId, real>, total: real)
    requires total > 0.0
  {
    && r.keys == ids && r.Valid()
    && forall id :: id in r.values ==> r.values[id] == Share(Weight(sizes, id), total)
  }

  lemma {:induction false} SharesOfDistinct(ids: seq<PanelId>, sizes: Record<PanelId, real>, total: real)
    requires Distinct(ids) && total > 0.0
    ensures SharesTable(Shares(ids, sizes, total), ids, sizes, total)
  {
    hide Weight, Share;
    if ids != [] {
      var last := |ids| - 1;
      var front := Shares(ids[..last], sizes, total);
      DistinctFront(ids);
      SharesOfDistinct(ids[..last], sizes, total);
      assert ids[last] !in front.keys;
      front.SetKeepsValid(ids[last], Share(Weight(sizes, ids[last]), total));
      assert ids == ids[..last] + [ids[last]];
    }
  }

  lemma {:induction false} DistinctFront(ids: seq<PanelId>)
    requires Distinct(ids) && ids != []
    ensures Distinct(ids[..|ids| - 1]) && ids[|ids| - 1] !in ids[..|ids| - 1]
  {
  }

  lemma {:induction false} SharesTotal(ids: seq<PanelId>, sizes: Record<PanelId, real>, total: real)
    requires Distinct(ids) && total > 0.0
    ensures Shares(ids, sizes, total).Valid()
    ensures SizeTotal(Shares(ids, sizes, total)) == Share(TotalWeight(ids, sizes), total)
  {
    hide Weight, Share, TotalWeight, Distinct;
    SharesOfDistinct(ids, sizes, total);
    if ids == [] {
      ShareOfNothing(total);
      NoWeight(sizes);
    } else {
      var last := |ids| - 1;
      var front := Shares(ids[..last], sizes, total);
      DistinctFront(ids);
      SharesOfDistinct(ids[..last], sizes, total);
      SharesTotal(ids[..last], sizes, total);
      TotalIgnores(front.keys, front.values, ids[last], Share(Weight(sizes, ids[last]), total));
      ShareAdds(TotalWeight(ids[..last], sizes), Weight(sizes, ids[last]), total);
      NextWeight(ids, sizes);
    }
  }

  lemma {:induction false} ShareOfNothing(total: real)
    requires total > 0.0
    ensures Share(0.0, total) == 0.0
  {
  }

  /** Renormalising a column without repeated panels gives positive sizes that make up 100. */
  lemma {:induction false} NormalizedIsSized(column: Column)
    requires Distinct(column.panelIds)
    ensures Sized(NormalizedColumn(column))
  {
    hide Weight, Share;
    if column.panelIds != [] {
      var total := TotalWeight(column.panelIds, column.sizes);
      SharesOfDistinct(column.panelIds, column.sizes, total);
      SharesTotal(column.panelIds, column.sizes, total);
      WholeShare(total);
      forall id | id in column.panelIds
        ensures Share(Weight(column.sizes, id), total) > 0.0
      {
        SharePositive(Weight(column.sizes, id), total);
      }
    }
  }

  /** a is to b as x is to y. */
  predicate SameRatio(a: real, b: real, x: real, y: real) {
    a * y == b * x
  }

  lemma {:induction false} SameProportion(x: real, y: real, total: real, sx: real, sy: real)
    requires total > 0.0 && sx == Share(x, total) && sy == Share(y, total)
    ensures SameRatio(sx, sy, x, y)
  {
    assert x / total * y == y / total * x;
  }

  /** Renormalising keeps the proportions of panels that had sizes. */
  lemma {:induction false} ProportionsAreKept(column: Column, a: PanelId, b: PanelId)
    requires Distinct(column.panelIds) && a in column.panelIds && b in column.panelIds
    requires a in column.sizes.values && column.sizes.values[a] > 0.0
    requires b in column.sizes.values && column.sizes.values[b] > 0.0
    ensures var sizes := NormalizedColumn(column).sizes.values;
      && a in sizes && b in sizes
      && SameRatio(sizes[a], sizes[b], column.sizes.values[a], column.sizes.values[b])
  {
    hide Share, TotalOf, SameRatio;
    var total := TotalWeight(column.panelIds, column.sizes);
    SharesOfDistinct(column.panelIds, column.sizes, total);
    var sizes := NormalizedColumn(column).sizes;
    assert a in sizes.keys && b in sizes.keys;
    SameProportion(column.sizes.values[a], column.sizes.values[b], total, sizes.values[a], sizes.values[b]);
  }

  lemma {:induction false} WeightsAreSizes(ids: seq<PanelId>, sizes: Record<PanelId, real>)
    requires forall id :: id in ids ==> id in sizes.values && sizes.values[id] > 0.0
    ensures TotalWeight(ids, sizes) == TotalOf(ids, sizes.values)
  {
    if ids != [] {
      WeightsAreSizes(ids[..|ids| - 1], sizes);
    }
  }

  lemma {:induction false} ShareOfHundred(x: real)
    ensures Share(x, 100.0) == x
  {
  }

  /** A column with proper sizes is not changed by renormalising. */
  lemma {:induction false} SizedIsNormalized(column: Column)
    requires Sized(column)
    ensures NormalizedColumn(column) == column
  {
    hide Share;
    if column.panelIds != [] {
      WeightsAreSizes(column.panelIds, column.sizes);
      SharesOfDistinct(column.panelIds, column.sizes, 100.0);
      var r := Shares(column.panelIds, column.sizes, 100.0);
      forall id | id in r.values
        ensures id in column.sizes.values && r.values[id] == column.sizes.values[id]
      {
        assert id in r.keys;
        ShareOfHundred(column.sizes.values[id]);
      }
      assert r.values == column.sizes.values;
    } else {
      assert column.sizes.values == map[];
    }
  }

  // --- Placements -------------------------------------------------------------------------------

  lemma {:induction false} LastPlaced(columns: seq<Column>, column: Column)
    ensures PlacedIn(columns + [column]) == PlacedIn(columns) + multiset(column.panelIds)
  {
    assert (columns + [column])[..|columns|] == columns;
  }

  lemma {:induction false} NothingPlaced()
    ensures PlacedIn([]) == multiset{}
  {
  }

  lemma {:induction false} PlacedInConcatenation(a: seq<Column>, b: seq<Column>)
    ensures PlacedIn(a + b) == PlacedIn(a) + PlacedIn(b)
  {
    hide PlacedIn;
    if b == [] {
      assert a + b == a;
      NothingPlaced();
    } else {
      var front, column := b[..|b| - 1], b[|b| - 1];
      PlacedInConcatenation(a, front);
      LastPlaced(front, column);
      LastPlaced(a + front, column);
      assert b == front + [column] && a + b == (a + front) + [column];
    }
  }

  lemma {:induction false} PlacedInOne(column: Column)
    ensures PlacedIn([column]) == multiset(column.panelIds)
  {
    assert [column][..0] == [];
  }

  lemma {:induction false} SplitAt(columns: seq<Column>, i: nat)
    requires i < |columns|
    ensures PlacedIn(columns) == PlacedIn(columns[..i]) + multiset(columns[i].panelIds) + PlacedIn(columns[i + 1..])
  {
    hide PlacedIn;
    assert columns == columns[..i] + [columns[i]] + columns[i + 1..];
    PlacedInConcatenation(columns[..i] + [columns[i]], columns[i + 1..]);
    PlacedInConcatenation(columns[..i], [columns[i]]);
    PlacedInOne(columns[i]);
  }

  lemma {:induction false} PlacedInUpdate(columns: seq<Column>, i: nat, column: Column)
    requires i < |columns|
    ensures PlacedIn(columns[i := column]) + multiset(columns[i].panelIds)
            == PlacedIn(columns) + multiset(column.panelIds)
  {
    hide PlacedIn;
    var updated := columns[i := column];
    SplitAt(columns, i);
    SplitAt(updated, i);
    assert updated[..i] == columns[..i] && updated[i + 1..] == columns[i + 1..];
  }

  lemma {:induction false} Cancel(a: multiset<PanelId>, b: multiset<PanelId>, c: multiset<PanelId>)
    requires a + c == b + c
    ensures a == b
  {
    forall x
      ensures a[x] == b[x]
    {
      assert (a + c)[x] == (b + c)[x];
    }
  }

  lemma {:induction false} PlacedInGrows(columns: seq<Column>, i: nat, column: Column, id: PanelId)
    requires i < |columns| && multiset(column.panelIds) == multiset(columns[i].panelIds) + multiset{id}
    ensures PlacedIn(columns[i := column]) == PlacedIn(columns) + multiset{id}
  {
    hide PlacedIn;
    PlacedInUpdate(columns, i, column);
    Cancel(PlacedIn(columns[i := column]), PlacedIn(columns) + multiset{id}, multiset(columns[i].panelIds));
  }

  lemma {:induction false} RemovedColumn(columns: seq<Column>, id: PanelId, i: nat)
    requires i < |columns|
    ensures RemoveFromColumns(columns, id)[i] == RemoveFromColumn(columns[i], id)
  {
    hide RemoveFromColumn;
    if i < |columns| - 1 {
      RemovedColumn(columns[..|columns| - 1], id, i);
    }
  }

  lemma {:induction false} RemovedPlacements(columns: seq<Column>, id: PanelId)
    ensures PlacedIn(RemoveFromColumns(columns, id)) == PlacedIn(columns)[id := 0]
  {
    hide NormalizedColumn;
    if columns != [] {
      var last := |columns| - 1;
      RemovedPlacements(columns[..last], id);
      WithoutMultiset(columns[last].panelIds, id);
      NormalizedKeepsPanels(columns[last].(panelIds := Without(columns[last].panelIds, id),
                                           sizes := columns[last].sizes.Delete(id)));
    }
  }

  lemma {:induction false} NormalizedKeepsPanels(column: Column)
    ensures NormalizedColumn(column).panelIds == column.panelIds
    ensures NormalizedColumn(column).id == column.id && NormalizedColumn(column).width == column.width
  {
  }

  lemma {:induction false} ColumnWithin(columns: seq<Column>, i: nat)
    requires i < |columns|
    ensures multiset(columns[i].panelIds) <= PlacedIn(columns)
  {
    SplitAt(columns, i);
  }

  lemma {:induction false} DistinctWithin(s: seq<PanelId>, whole: seq<PanelId>)
    requires multiset(s) <= multiset(whole) && Distinct(whole)
    ensures Distinct(s)
  {
    DistinctPart(s, multiset(whole) - multiset(s), whole);
  }

  /** Sizes after an update of one column. */
  lemma {:induction false} UpdatedSizes(columns: seq<Column>, i: nat, column: Column)
    requires i < |columns| && SizesOk(columns) && Sized(column)
    ensures SizesOk(columns[i := column])
  {
  }

  // --- Removing and inserting -------------------------------------------------------------------------

  /** Everything is placed except `id`. */
  predicate AllButOne(d: Document, id: PanelId) {
    Placed(d) + multiset{id} == multiset(d.instances.keys)
  }

  predicate SameFrame(d: Document, d': Document) {
    && |d'.columns| == |d.columns|
    && (forall i :: 0 <= i < |d.columns| ==> d'.columns[i].id == d.columns[i].id)
    && d'.columnCount == d.columnCount && d'.nextInstance == d.nextInstance && d'.nextColumn == d.nextColumn
  }

  lemma {:induction false} RemovePlacementSizes(columns: seq<Column>, id: PanelId)
    requires SizesOk(columns)
    ensures SizesOk(RemoveFromColumns(columns, id))
    ensures forall i :: 0 <= i < |columns| ==> RemoveFromColumns(columns, id)[i].id == columns[i].id
  {
    hide Sized, NormalizedColumn;
    forall i | 0 <= i < |columns|
      ensures Sized(RemoveFromColumns(columns, id)[i])
      ensures RemoveFromColumns(columns, id)[i].id == columns[i].id
    {
      RemovedColumn(columns, id, i);
      assert Sized(columns[i]);
      SizedIsDistinct(columns[i]);
      WithoutDistinct(columns[i].panelIds, id);
      var column := columns[i].(panelIds := Without(columns[i].panelIds, id), sizes := columns[i].sizes.Delete(id));
      NormalizedIsSized(column);
      NormalizedKeepsPanels(column);
    }
  }

  lemma {:induction false} SizedIsDistinct(column: Column)
    requires Sized(column)
    ensures Distinct(column.panelIds)
  {
  }

  lemma {:induction false} RemovePlacementUnplaces(d: Document, id: PanelId)
    requires d.instances.Valid() && d.Has(id) && PlacementOk(d) && SizesOk(d.columns)
    ensures var d' := RemovePlacement(d, id);
      && AllButOne(d', id) && SizesOk(d'.columns) && SameFrame(d, d')
      && forall x :: x in d'.floating <==> x in d.floating && x != id
  {
    hide Sized, RemoveFromColumn, Without, PlacedIn;
    RemovedPlacements(d.columns, id);
    RemovePlacementSizes(d.columns, id);
    WithoutMultiset(d.floating, id);
    WithoutElements(d.floating, id);
    CountOne(d.instances.keys, id);
  }

  lemma {:induction false} CountOne(s: seq<PanelId>, x: PanelId)
    requires Distinct(s) && x in s
    ensures multiset(s)[x] == 1
  {
    CountAtMostOne(s, x);
    assert x in multiset(s);
  }

  lemma {:induction false} InsertedPlacement(d: Document, c: nat, index: Option<int>, id: PanelId)
    requires c < |d.columns| && AllButOne(d, id)
    ensures PlacementOk(PlaceInColumn(d, c, index, id))
    ensures PlaceInColumn(d, c, index, id).columns[c] == InsertIntoColumn(d.columns[c], index, id)
  {
    hide NormalizedColumn, PlacedIn;
    var before := d.columns[c];
    var k := Clamp(index.GetOr(|before.panelIds|), |before.panelIds|);
    InsertedMultiset(before.panelIds, k, id);
    NormalizedKeepsPanels(before.(panelIds := Inserted(before.panelIds, k, id)));
    PlacedInGrows(d.columns, c, InsertIntoColumn(before, index, id), id);
  }

  lemma {:induction false} PlaceInColumnPlaces(d: Document, c: nat, index: Option<int>, id: PanelId)
    requires c < |d.columns| && Distinct(d.instances.keys) && AllButOne(d, id) && SizesOk(d.columns)
    ensures var d' := PlaceInColumn(d, c, index, id);
      PlacementOk(d') && SizesOk(d'.columns) && SameFrame(d, d')
  {
    hide Sized, NormalizedColumn, PlacedIn, Inserted, Distinct;
    var before := d.columns[c];
    var k := Clamp(index.GetOr(|before.panelIds|), |before.panelIds|);
    var inserted := before.(panelIds := Inserted(before.panelIds, k, id));
    InsertedPlacement(d, c, index, id);
    NormalizedKeepsPanels(inserted);
    ColumnWithin(PlaceInColumn(d, c, index, id).columns, c);
    DistinctWithin(inserted.panelIds, d.instances.keys);
    NormalizedIsSized(inserted);
    UpdatedSizes(d.columns, c, NormalizedColumn(inserted));
  }
}
