// Which rows of a read count as the same, in terms of their columns, and what that means for the rows kept.
module RowIdentity {
  import opened Common
  import opened PagedRead

  const SEPARATOR := ":warehouse:"

  // ---------- Which rows are taken for the same ----------

  /** The same id in the same warehouse; rows without an id of their own are compared by product, others as a whole. */
  predicate SameRow(a: Record, b: Record) {
    if a.ownId.Some? || b.ownId.Some? then a.ownId == b.ownId && a.warehouseId == b.warehouseId
    else if a.productId.Some? || b.productId.Some? then a.productId == b.productId && a.warehouseId == b.warehouseId
    else a.json == b.json
  }

  /** The id runs over into the warehouse: "1:warehouse:A" in "B" is written like "1" in "A:warehouse:B". */
  predicate RunsOver(id: string, warehouse: string, otherId: string, otherWarehouse: string) {
    && |otherId| < |id| && otherId + SEPARATOR <= id + SEPARATOR
    && otherWarehouse == (id + SEPARATOR)[|otherId + SEPARATOR|..] + warehouse
  }

  predicate WrittenAlike(id: string, warehouse: string, otherId: string, otherWarehouse: string) {
    || (id == otherId && warehouse == otherWarehouse)
    || RunsOver(id, warehouse, otherId, otherWarehouse) || RunsOver(otherId, otherWarehouse, id, warehouse)
  }

  /** The longer id, with the separator, starts with the shorter one, and the warehouses make up the difference. */
  lemma LongerIsWrittenAlikeIff(id: string, warehouse: string, otherId: string, otherWarehouse: string)
    requires |otherId| <= |id|
    ensures id + SEPARATOR + warehouse == otherId + SEPARATOR + otherWarehouse
            <==> (id == otherId && warehouse == otherWarehouse) || RunsOver(id, warehouse, otherId, otherWarehouse)
  {
    var x, y := id + SEPARATOR, otherId + SEPARATOR;
    if x + warehouse == y + otherWarehouse {
      assert y == (y + otherWarehouse)[..|y|] == (x + warehouse)[..|y|] == x[..|y|];
      assert otherWarehouse == (y + otherWarehouse)[|y|..] == (x + warehouse)[|y|..] == x[|y|..] + warehouse;
      if |id| == |otherId| {
        assert id == x[..|id|] && otherId == y[..|id|];
        assert x[|y|..] == [];
      }
    }
    if RunsOver(id, warehouse, otherId, otherWarehouse) {
      assert x == y + x[|y|..];
      assert x + warehouse == y + (x[|y|..] + warehouse);
    }
  }

  lemma WrittenAlikeIff(id: string, warehouse: string, otherId: string, otherWarehouse: string)
    ensures id + SEPARATOR + warehouse == otherId + SEPARATOR + otherWarehouse
            <==> WrittenAlike(id, warehouse, otherId, otherWarehouse)
  {
    if |otherId| <= |id| {
      LongerIsWrittenAlikeIff(id, warehouse, otherId, otherWarehouse);
    } else {
      LongerIsWrittenAlikeIff(otherId, otherWarehouse, id, warehouse);
    }
  }

  /** Two ids of one kind whose writing runs over. */
  predicate Mixed(a: Record, b: Record) {
    if a.ownId.Some? && b.ownId.Some? then
      || RunsOver(a.ownId.value, a.warehouseId, b.ownId.value, b.warehouseId)
      || RunsOver(b.ownId.value, b.warehouseId, a.ownId.value, a.warehouseId)
    else if a.ownId.None? && b.ownId.None? && a.productId.Some? && b.productId.Some? then
      || RunsOver(a.productId.value, a.warehouseId, b.productId.value, b.warehouseId)
      || RunsOver(b.productId.value, b.warehouseId, a.productId.value, a.warehouseId)
    else false
  }

  /** Two rows are taken for the same exactly when they are, or when an id runs over into the warehouse. */
  lemma SameIdentityIff(a: Record, b: Record)
    ensures Identity(a) == Identity(b) <==> SameRow(a, b) || Mixed(a, b)
  {
    if a.ownId.Some? && b.ownId.Some? {
      Tagged("id:", a.ownId.value, a.warehouseId, b.ownId.value, b.warehouseId);
    } else if a.ownId.None? && b.ownId.None? && a.productId.Some? && b.productId.Some? {
      Tagged("product:", a.productId.value, a.warehouseId, b.productId.value, b.warehouseId);
    } else if a.ownId.None? && b.ownId.None? && a.productId.None? && b.productId.None? {
      assert Identity(a)[5..] == a.json && Identity(b)[5..] == b.json;
    } else {
      assert Identity(a)[0] != Identity(b)[0];
    }
  }

  lemma Tagged(tag: string, id: string, warehouse: string, otherId: string, otherWarehouse: string)
    ensures tag + id + SEPARATOR + warehouse == tag + otherId + SEPARATOR + otherWarehouse
            <==> WrittenAlike(id, warehouse, otherId, otherWarehouse)
  {
    var x, y := id + SEPARATOR + warehouse, otherId + SEPARATOR + otherWarehouse;
    assert tag + id + SEPARATOR + warehouse == tag + x && tag + otherId + SEPARATOR + otherWarehouse == tag + y;
    assert (tag + x)[|tag|..] == x && (tag + y)[|tag|..] == y;
    WrittenAlikeIff(id, warehouse, otherId, otherWarehouse);
  }

  /** It happens: product "1:warehouse:A" in warehouse "B" is taken for product "1" in warehouse "A:warehouse:B". */
  lemma IdsCanRunOver()
    ensures var a, b := Record(None, Some("1:warehouse:A"), "B", ""), Record(None, Some("1"), "A:warehouse:B", "");
            !SameRow(a, b) && Identity(a) == Identity(b)
  {
    var x := "product:" + "1" + ":warehouse:" + "A" + ":warehouse:" + "B";
    assert "product:" + "1:warehouse:A" + ":warehouse:" + "B" == x;
    assert "product:" + "1" + ":warehouse:" + "A:warehouse:B" == x;
  }

  // ---------- What is kept ----------

  predicate PairwiseApart(records: seq<Record>) {
    forall i, j :: 0 <= i < j < |records| ==> !SameRow(records[i], records[j]) && !Mixed(records[i], records[j])
  }

  lemma ApartIff(records: seq<Record>)
    ensures DistinctIdentities(records) <==> PairwiseApart(records)
  {
    forall i, j | 0 <= i < j < |records|
      ensures Identity(records[i]) != Identity(records[j])
              <==> !SameRow(records[i], records[j]) && !Mixed(records[i], records[j]) {
      SameIdentityIff(records[i], records[j]);
    }
  }

  /** A row already kept is dropped, a new one is appended up to the cap. */
  lemma RowIsAddedIff(merged: seq<Record>, r: Record)
    ensures var known := exists k :: k in merged && (SameRow(k, r) || Mixed(k, r));
            AddUnique(merged, [r])
            == if known then Some(merged) else if |merged| < 20_000 then Some(merged + [r]) else None
  {
    forall k | k in merged
      ensures Identity(k) == Identity(r) <==> SameRow(k, r) || Mixed(k, r)
    {
      SameIdentityIff(k, r);
    }
    assert [r][1..] == [];
  }

  /** An id of its own tells a row apart whatever the product; the same id in the same warehouse is kept once. */
  lemma OwnIdDecides(
    id: string, other: string, p: Option<string>, q: Option<string>, warehouse: string, j: string, k: string)
    ensures AddUnique([Record(Some(id), p, warehouse, j)], [Record(Some(id), q, warehouse, k)])
            == Some([Record(Some(id), p, warehouse, j)])
    ensures id != other ==>
              AddUnique([Record(Some(id), p, warehouse, j)], [Record(Some(other), p, warehouse, j)])
              == Some([Record(Some(id), p, warehouse, j), Record(Some(other), p, warehouse, j)])
  {
    var known, again := Record(Some(id), p, warehouse, j), Record(Some(id), q, warehouse, k);
    RowIsAddedIff([known], again);
    assert SameRow(known, again) && known in [known];
    var a, b := Record(Some(id), p, warehouse, j), Record(Some(other), p, warehouse, j);
    RowIsAddedIff([a], b);
    if id != other {
      OneWarehouseDoesNotRunOver(id, other, warehouse);
      assert !SameRow(a, b) && !Mixed(a, b) && [a] + [b] == [a, b];
    }
  }

  lemma OneWarehouseDoesNotRunOver(id: string, other: string, warehouse: string)
    ensures !RunsOver(id, warehouse, other, warehouse) && !RunsOver(other, warehouse, id, warehouse)
  {
  }

  // ---------- Reading stock of one product in several warehouses ----------

  predicate DifferentWarehouses(records: seq<Record>) {
    forall i, j :: 0 <= i < j < |records| ==> records[i].warehouseId != records[j].warehouseId
  }

  lemma WarehousesAreApart(list: seq<Record>, id: Option<string>, product: Option<string>)
    requires (forall r :: r in list ==> r.ownId == id && r.productId == product) && DifferentWarehouses(list)
    requires id.Some? || product.Some?
    ensures DistinctIdentities(list)
  {
    forall i, j | 0 <= i < j < |list| ensures Identity(list[i]) != Identity(list[j]) {
      assert list[i] in list && list[j] in list;
      SameIdentityIff(list[i], list[j]);
    }
  }

  /**
   * Rows of one id, or of one product, in different warehouses are read whole and in order whenever the server leads
   * through them within the caps.
   */
  lemma WarehousesAreReadWhole(r: Reading, w: Walk, id: Option<string>, product: Option<string>)
    requires w.Led(r) && DifferentWarehouses(w.list) && (id.Some? || product.Some?)
    requires forall x :: x in w.list ==> x.ownId == id && x.productId == product
    ensures var result := ReadExpanded(r, w.pages(0));
            (result.Ok? <==> w.Fits(r)) && (result.Ok? ==> RecordsOf(result.value) == w.list)
  {
    WarehousesAreApart(w.list, id, product);
    WalkReadsList(r, w);
  }
}
