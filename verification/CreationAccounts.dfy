/** The rows that creating a direct shipment or a transfer DC inserts, item by item and destination by destination. */
module CreationAccounts {
  import opened Tables
  import opened Sums
  import opened Records
  import opened Shipments
  import opened CreationSpec
  import opened Invariants
  import opened Accounts
  import opened CreationFacts

  /** The quantities of one item over the first n destinations. */
  function QuantityTo(it: ItemParams, n: nat): int {
    if n == 0 then 0 else QuantityTo(it, n - 1) + it.QuantityAt(n - 1)
  }

  /** What the wizard submits: destinations filled in, one entry per item, totals added up, serials cleaned. */
  ghost predicate WellFormed(p: CreateParams) {
    && p.shipTos != [] && (forall i :: 0 <= i < |p.shipTos| ==> p.shipTos[i] != 0)
    && (forall j, k :: 0 <= j < k < |p.items| ==> p.items[j].key != p.items[k].key)
    && (forall j :: 0 <= j < |p.items| ==>
          && |p.items[j].quantities| == |p.shipTos|
          && (forall i :: 0 <= i < |p.shipTos| ==> p.items[j].quantities[i] >= 0)
          && p.items[j].total == QuantityTo(p.items[j], |p.shipTos|)
          && forall t :: t in p.items[j].serials ==> CleanText(t))
  }

  lemma QuantityAtSign(p: CreateParams, j: nat, i: nat)
    requires WellFormed(p) && j < |p.items|
    ensures p.items[j].QuantityAt(i) >= 0
  {
    assert |p.items[j].quantities| == |p.shipTos|;
  }

  lemma {:induction false} QuantityToSign(p: CreateParams, j: nat, n: nat)
    requires WellFormed(p) && j < |p.items|
    ensures 0 <= QuantityTo(p.items[j], n)
    ensures forall i :: 0 <= i < n ==> p.items[j].QuantityAt(i) <= QuantityTo(p.items[j], n)
  {
    if n > 0 {
      QuantityToSign(p, j, n - 1);
      QuantityAtSign(p, j, n - 1);
    }
  }

  // ---- Direct shipments balance ----

  /** What the first n items named key add up to for destination i. */
  function Column(items: seq<ItemParams>, key: SourceKey, i: nat, n: nat): int
    requires n <= |items|
  {
    if n == 0 then 0 else
      Column(items, key, i, n - 1) + if items[n - 1].key == key then items[n - 1].QuantityAt(i) else 0
  }

  function Columns(items: seq<ItemParams>, key: SourceKey, m: nat, n: nat): int
    requires n <= |items|
  {
    if m == 0 then 0 else Columns(items, key, m - 1, n) + Column(items, key, m - 1, n)
  }

  lemma {:induction false} ColumnsByItem(items: seq<ItemParams>, key: SourceKey, m: nat, n: nat)
    requires 0 < n <= |items|
    ensures Columns(items, key, m, n)
            == Columns(items, key, m, n - 1) + if items[n - 1].key == key then QuantityTo(items[n - 1], m) else 0
  {
    if m > 0 {
      ColumnsByItem(items, key, m - 1, n);
    }
  }

  lemma {:induction false} ColumnsOfNone(items: seq<ItemParams>, key: SourceKey, m: nat)
    ensures Columns(items, key, m, 0) == 0
  {
    if m > 0 {
      ColumnsOfNone(items, key, m - 1);
    }
  }

  lemma ItemLinesStep(items: seq<ItemParams>, n: nat, x: Id)
    requires 0 < n <= |items|
    ensures var it := items[n - 1];
      ItemLines(PricedItems(items, n), x)
      == ItemLines(PricedItems(items, n - 1), x)
         + if it.total != 0 then [PricedLine(it.key, it.total, it.rate, it.taxPercent, n).(dc := x)] else []
  {
  }

  lemma {:induction false} PricedTotal(p: CreateParams, n: nat, x: Id, key: SourceKey)
    requires WellFormed(p) && n <= |p.items|
    ensures SeqTotal(ItemLines(PricedItems(p.items, n), x), KeyAmount(key, Quantity))
            == Columns(p.items, key, |p.shipTos|, n) as real
  {
    if n == 0 {
      ColumnsOfNone(p.items, key, |p.shipTos|);
    } else {
      var it := p.items[n - 1];
      PricedTotal(p, n - 1, x, key);
      ItemLinesStep(p.items, n, x);
      SeqTotalMaybe(ItemLines(PricedItems(p.items, n - 1), x), it.total != 0,
                    PricedLine(it.key, it.total, it.rate, it.taxPercent, n).(dc := x), KeyAmount(key, Quantity));
      ColumnsByItem(p.items, key, |p.shipTos|, n);
    }
  }

  lemma {:induction false} ConsignmentTotal(items: seq<ItemParams>, i: nat, n: nat, key: SourceKey)
    requires n <= |items|
    ensures SeqTotal(ConsignmentLines(items, i, n), KeyAmount(key, Quantity)) == Column(items, key, i, n) as real
  {
    if n > 0 {
      var q := items[n - 1].QuantityAt(i);
      ConsignmentTotal(items, i, n - 1, key);
      SeqTotalMaybe(ConsignmentLines(items, i, n - 1), q != 0, PlainLine(items[n - 1].key, q, n), KeyAmount(key, Quantity));
    }
  }

  lemma {:induction false} EmptyColumn(p: CreateParams, key: SourceKey, i: nat, n: nat)
    requires WellFormed(p) && !HasQuantity(p.items, i) && n <= |p.items|
    ensures Column(p.items, key, i, n) == 0
  {
    if n > 0 {
      EmptyColumn(p, key, i, n - 1);
      QuantityAtSign(p, n - 1, i);
    }
  }

  function DirectRows(p: CreateParams, first: Id, n: nat): seq<Line>
    requires n <= |p.shipTos|
  {
    OfficialLines(Consignments(p, n), first, |Consignments(p, n)|)
  }

  lemma DirectRowsStep(p: CreateParams, first: Id, n: nat)
    requires 0 < n <= |p.shipTos| && p.shipTos[n - 1] != 0
    ensures DirectRows(p, first, n) == DirectRows(p, first, n - 1)
      + if HasQuantity(p.items, n - 1)
        then Addressed(ConsignmentLines(p.items, n - 1, |p.items|), first + |Consignments(p, n - 1)|) else []
  {
    var before := Consignments(p, n - 1);
    if HasQuantity(p.items, n - 1) {
      var c := Consignment(p.shipTos[n - 1], ConsignmentLines(p.items, n - 1, |p.items|));
      assert Consignments(p, n) == before + [c];
      OfficialLinesPrefix(before, c, first, |before|);
    } else {
      assert Consignments(p, n) == before;
    }
  }

  lemma DirectTotalStep(p: CreateParams, first: Id, n: nat, key: SourceKey)
    requires WellFormed(p) && 0 < n <= |p.shipTos|
    ensures SeqTotal(DirectRows(p, first, n), KeyAmount(key, Quantity))
            == SeqTotal(DirectRows(p, first, n - 1), KeyAmount(key, Quantity)) + Column(p.items, key, n - 1, |p.items|) as real
  {
    if HasQuantity(p.items, n - 1) {
      SomethingReceived(p, first, n, key);
    } else {
      NothingReceived(p, first, n, key);
    }
  }

  lemma SomethingReceived(p: CreateParams, first: Id, n: nat, key: SourceKey)
    requires 0 < n <= |p.shipTos| && p.shipTos[n - 1] != 0 && HasQuantity(p.items, n - 1)
    ensures SeqTotal(DirectRows(p, first, n), KeyAmount(key, Quantity))
            == SeqTotal(DirectRows(p, first, n - 1), KeyAmount(key, Quantity)) + Column(p.items, key, n - 1, |p.items|) as real
  {
    DirectRowsStep(p, first, n);
    ConsignmentAdds(p.items, n - 1, DirectRows(p, first, n - 1), first + |Consignments(p, n - 1)|, DirectRows(p, first, n), key);
  }

  lemma NothingReceived(p: CreateParams, first: Id, n: nat, key: SourceKey)
    requires WellFormed(p) && 0 < n <= |p.shipTos| && !HasQuantity(p.items, n - 1)
    ensures DirectRows(p, first, n) == DirectRows(p, first, n - 1) && Column(p.items, key, n - 1, |p.items|) == 0
  {
    DirectRowsStep(p, first, n);
    assert DirectRows(p, first, n - 1) + [] == DirectRows(p, first, n - 1);
    EmptyColumn(p, key, n - 1, |p.items|);
  }

  lemma ConsignmentAdds(items: seq<ItemParams>, i: nat, before: seq<Line>, dc: Id, after: seq<Line>, key: SourceKey)
    requires after == before + Addressed(ConsignmentLines(items, i, |items|), dc)
    ensures SeqTotal(after, KeyAmount(key, Quantity))
            == SeqTotal(before, KeyAmount(key, Quantity)) + Column(items, key, i, |items|) as real
  {
    var rows := ConsignmentLines(items, i, |items|);
    SeqTotalConcat(before, Addressed(rows, dc), KeyAmount(key, Quantity));
    AddressedTotal(rows, dc, key);
    ConsignmentTotal(items, i, |items|, key);
  }

  lemma {:induction false} DirectTotal(p: CreateParams, first: Id, n: nat, key: SourceKey)
    requires WellFormed(p) && n <= |p.shipTos|
    ensures SeqTotal(DirectRows(p, first, n), KeyAmount(key, Quantity)) == Columns(p.items, key, n, |p.items|) as real
  {
    if n > 0 {
      DirectTotal(p, first, n - 1, key);
      DirectTotalStep(p, first, n, key);
    }
  }

  /** For every item, the transit rows of a direct shipment carry what its official rows deliver. */
  lemma DirectSidesAgree(p: CreateParams, x: Id, key: SourceKey)
    requires WellFormed(p)
    ensures SeqTotal(ItemLines(PricedItems(p.items, |p.items|), x), KeyAmount(key, Quantity))
            == SeqTotal(DirectRows(p, x + 1, |p.shipTos|), KeyAmount(key, Quantity))
  {
    PricedTotal(p, |p.items|, x, key);
    DirectTotal(p, x + 1, |p.shipTos|, key);
  }

  // ---- The plan of a transfer DC ----

  function PlanRow(p: CreateParams, first: Id, i: nat, j: nat): Plan
    requires j < |p.items|
  {
    Plan(first + i, p.items[j].key, p.items[j].QuantityAt(i))
  }

  /** r is the plan of some item for one of the first n destinations. */
  ghost predicate FromPlan(p: CreateParams, first: Id, n: nat, r: Plan) {
    && first <= r.destination < first + n
    && exists j :: 0 <= j < |p.items| && p.items[j].key == r.key && p.items[j].QuantityAt(r.destination - first) == r.quantity
  }

  lemma {:induction false} ColumnFromPlan(p: CreateParams, first: Id, d: Id, i: nat, n: nat)
    requires n <= |p.items| && d == first + i
    ensures forall r :: r in ColumnPlans(p.items, d, i, n) ==> FromPlan(p, first, i + 1, r)
  {
    if n > 0 {
      ColumnFromPlan(p, first, d, i, n - 1);
    }
  }

  lemma {:induction false} ColumnHolds(p: CreateParams, first: Id, d: Id, i: nat, n: nat, j: nat)
    requires j < n <= |p.items| && d == first + i && p.items[j].QuantityAt(i) != 0
    ensures PlanRow(p, first, i, j) in ColumnPlans(p.items, d, i, n)
  {
    if j < n - 1 {
      ColumnHolds(p, first, d, i, n - 1, j);
    }
  }

  lemma PlanRowsStep(p: CreateParams, first: Id, n: nat)
    requires 0 < n <= |p.shipTos| && forall i :: 0 <= i < n ==> p.shipTos[i] != 0
    ensures PlanRows(p, first, n) == PlanRows(p, first, n - 1) + ColumnPlans(p.items, first + (n - 1), n - 1, |p.items|)
  {
    DestinationRowsFor(p.shipTos, 0, n - 1);
  }

  lemma {:induction false} RowsFromPlan(p: CreateParams, first: Id, n: nat)
    requires n <= |p.shipTos| && forall i :: 0 <= i < n ==> p.shipTos[i] != 0
    ensures forall r :: r in PlanRows(p, first, n) ==> FromPlan(p, first, n, r)
  {
    if n > 0 {
      RowsFromPlan(p, first, n - 1);
      PlanRowsStep(p, first, n);
      ColumnFromPlan(p, first, first + (n - 1), n - 1, |p.items|);
    }
  }

  lemma NewRowHolds(p: CreateParams, first: Id, n: nat, r: Plan)
    requires 0 < n <= |p.shipTos| && forall k :: 0 <= k < n ==> p.shipTos[k] != 0
    requires r in ColumnPlans(p.items, first + (n - 1), n - 1, |p.items|)
    ensures r in PlanRows(p, first, n)
  {
    PlanRowsStep(p, first, n);
    HeldByEither(r, PlanRows(p, first, n - 1), ColumnPlans(p.items, first + (n - 1), n - 1, |p.items|));
  }

  lemma EarlierRowHolds(p: CreateParams, first: Id, n: nat, r: Plan)
    requires 0 < n <= |p.shipTos| && forall k :: 0 <= k < n ==> p.shipTos[k] != 0
    requires r in PlanRows(p, first, n - 1)
    ensures r in PlanRows(p, first, n)
  {
    PlanRowsStep(p, first, n);
    HeldByEither(r, PlanRows(p, first, n - 1), ColumnPlans(p.items, first + (n - 1), n - 1, |p.items|));
  }

  lemma LastRowHolds(p: CreateParams, first: Id, n: nat, j: nat)
    requires 0 < n <= |p.shipTos| && j < |p.items| && p.items[j].QuantityAt(n - 1) != 0
    requires forall k :: 0 <= k < n ==> p.shipTos[k] != 0
    ensures PlanRow(p, first, n - 1, j) in PlanRows(p, first, n)
  {
    ColumnHolds(p, first, first + (n - 1), n - 1, |p.items|, j);
    NewRowHolds(p, first, n, PlanRow(p, first, n - 1, j));
  }

  lemma {:induction false} RowsHold(p: CreateParams, first: Id, n: nat, i: nat, j: nat)
    requires i < n <= |p.shipTos| && j < |p.items| && p.items[j].QuantityAt(i) != 0
    requires forall k :: 0 <= k < n ==> p.shipTos[k] != 0
    ensures PlanRow(p, first, i, j) in PlanRows(p, first, n)
  {
    if i == n - 1 {
      LastRowHolds(p, first, n, j);
    } else {
      RowsHold(p, first, n - 1, i, j);
      EarlierRowHolds(p, first, n, PlanRow(p, first, i, j));
    }
  }

  lemma HeldByEither(r: Plan, a: seq<Plan>, b: seq<Plan>)
    requires r in a || r in b
    ensures r in a + b
  {
  }

  lemma FoundQuantity(p: CreateParams, first: Id, n: nat, i: nat, j: nat, r: Plan)
    requires WellFormed(p) && j < |p.items| && FromPlan(p, first, n, r)
    requires r.destination == first + i && r.key == p.items[j].key
    ensures r.quantity == p.items[j].QuantityAt(i)
  {
    var k :| 0 <= k < |p.items| && p.items[k].key == r.key && p.items[k].QuantityAt(r.destination - first) == r.quantity;
    assert k == j;
  }

  /** The stored plan gives back the quantities it was created from. */
  lemma PlannedIsQuantity(p: CreateParams, plans: Table<Plan>, first: Id, i: nat, j: nat)
    requires WellFormed(p) && plans.Valid() && i < |p.shipTos| && j < |p.items|
    requires forall r :: r in plans.rows ==> plans.rows[r].destination < first
    ensures Planned(plans.InsertAll(PlanRows(p, first, |p.shipTos|)), first + i, p.items[j].key) == p.items[j].QuantityAt(i)
  {
    var rows := PlanRows(p, first, |p.shipTos|);
    var after := plans.InsertAll(rows);
    var found := PlansFor(after, first + i, p.items[j].key);
    InsertAllExtends(plans, rows);
    if p.items[j].QuantityAt(i) != 0 {
      RowsHold(p, first, |p.shipTos|, i, j);
      var k :| 0 <= k < |rows| && rows[k] == PlanRow(p, first, i, j);
      InsertAllAt(plans, rows, k);
      assert plans.next + k in found;
    }
    if found != {} {
      var r := after.rows[Least(found)];
      RowsFromPlan(p, first, |p.shipTos|);
      FoundQuantity(p, first, |p.shipTos|, i, j, r);
    }
  }

  lemma {:induction false} SumRange(first: Id, n: nat, f: Id -> real, it: ItemParams)
    requires forall i: nat :: i < n ==> f(first + i) == it.QuantityAt(i) as real
    ensures Sum(IdRange(first, n), f) == QuantityTo(it, n) as real
  {
    if n > 0 {
      SumRange(first, n - 1, f, it);
      SumPick(IdRange(first, n), f, first + (n - 1));
      assert IdRange(first, n) - {first + (n - 1)} == IdRange(first, n - 1);
    }
  }

  /** The plan of a new transfer DC adds up to the total of each item. */
  lemma PlannedIsTotal(p: CreateParams, plans: Table<Plan>, first: Id, j: nat)
    requires WellFormed(p) && plans.Valid() && j < |p.items|
    requires forall r :: r in plans.rows ==> plans.rows[r].destination < first
    ensures PlannedFor(plans.InsertAll(PlanRows(p, first, |p.shipTos|)), IdRange(first, |p.shipTos|), p.items[j].key)
            == p.items[j].total as real
  {
    var after := plans.InsertAll(PlanRows(p, first, |p.shipTos|));
    var f := PlannedAt(after, p.items[j].key);
    forall i: nat | i < |p.shipTos|
      ensures f(first + i) == p.items[j].QuantityAt(i) as real
    {
      PlannedIsQuantity(p, plans, first, i, j);
    }
    SumRange(first, |p.shipTos|, f, p.items[j]);
  }

  // ---- The lines of a transfer DC ----

  function PricedFrom(it: ItemParams, order: nat): Line {
    PricedLine(it.key, it.total, it.rate, it.taxPercent, order)
  }

  lemma PricedItemsStep(items: seq<ItemParams>, n: nat)
    requires 0 < n <= |items|
    ensures items[n - 1].total == 0 ==> PricedItems(items, n) == PricedItems(items, n - 1)
    ensures items[n - 1].total != 0 ==>
              PricedItems(items, n) == PricedItems(items, n - 1) + [Item(PricedFrom(items[n - 1], n), items[n - 1].serials)]
  {
    assert PricedItems(items, n - 1) + [] == PricedItems(items, n - 1);
  }

  lemma {:induction false} PricedItemsExactly(items: seq<ItemParams>, n: nat)
    requires n <= |items|
    ensures var r := PricedItems(items, n);
      forall k :: 0 <= k < |r| ==>
        && 0 < r[k].line.order <= n && items[r[k].line.order - 1].total != 0
        && r[k].line == PricedFrom(items[r[k].line.order - 1], r[k].line.order)
        && r[k].serials == items[r[k].line.order - 1].serials
  {
    if n > 0 {
      PricedItemsExactly(items, n - 1);
      PricedItemsStep(items, n);
    }
  }

  lemma PricedItemSource(items: seq<ItemParams>, k: nat) returns (j: nat)
    requires k < |PricedItems(items, |items|)|
    ensures j < |items| && PricedItems(items, |items|)[k] == Item(PricedFrom(items[j], j + 1), items[j].serials)
  {
    var r := PricedItems(items, |items|);
    PricedItemsExactly(items, |items|);
    assert 0 < r[k].line.order;
    j := r[k].line.order - 1;
  }

  lemma {:induction false} PricedItemsOrdered(items: seq<ItemParams>, n: nat)
    requires n <= |items|
    ensures var r := PricedItems(items, n);
      forall k, l :: 0 <= k < l < |r| ==> r[k].line.order < r[l].line.order
  {
    if n > 0 {
      PricedItemsOrdered(items, n - 1);
      PricedItemsExactly(items, n - 1);
      PricedItemsStep(items, n);
    }
  }

  /** An item with a total gets a line. */
  lemma {:induction false} PricedItemFound(items: seq<ItemParams>, n: nat, j: nat) returns (k: nat)
    requires j < n <= |items| && items[j].total != 0
    ensures k < |PricedItems(items, n)| && PricedItems(items, n)[k].line == PricedFrom(items[j], j + 1)
  {
    if j == n - 1 {
      k := |PricedItems(items, n - 1)|;
    } else {
      k := PricedItemFound(items, n - 1, j);
    }
  }
}
