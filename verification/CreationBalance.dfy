/** Creating direct shipments and transfer DCs keeps the accounts. */
module CreationBalance {
  import opened Tables
  import opened Sums
  import opened Records
  import opened Shipments
  import opened CreationSpec
  import opened Invariants
  import opened ShipmentFacts
  import opened CreationFacts
  import opened Accounts
  import opened CreationAccounts

  // ---- Direct shipments ----

  lemma DirectKeepsGroup(s: Store, a: Store, n: nat, row: Group, h: Id)
    requires Tabled(s) && RowsLinked(s) && MembersLinked(s.dcs, s.groups) && h in s.groups.rows && DirectTables(s, a, n, row)
    ensures GroupKept(s.dcs, a.dcs, s.lines, a.lines, h)
  {
  }

  lemma NewDirectLines(s: Store, p: CreateParams)
    ensures AfterDirect(s, p).lines
            == s.lines.InsertAll(ItemLines(PricedItems(p.items, |p.items|), s.dcs.next)
                                 + DirectRows(p, s.dcs.next + 1, |p.shipTos|))
    ensures DirectShipment(p).consignments == Consignments(p, |p.shipTos|)
  {
  }

  lemma NewDirectTotals(s: Store, a: Store, p: CreateParams, n: nat, row: Group, key: SourceKey)
    requires Tabled(s) && RowsLinked(s) && MembersLinked(s.dcs, s.groups) && DirectTables(s, a, n, row)
    requires n == |Consignments(p, |p.shipTos|)|
    requires a.lines == s.lines.InsertAll(ItemLines(PricedItems(p.items, |p.items|), s.dcs.next)
                                          + DirectRows(p, s.dcs.next + 1, |p.shipTos|))
    ensures GroupTotal(a.dcs, a.lines, s.groups.next, Transit, key, Quantity)
            == SeqTotal(ItemLines(PricedItems(p.items, |p.items|), s.dcs.next), KeyAmount(key, Quantity))
    ensures GroupTotal(a.dcs, a.lines, s.groups.next, Official, key, Quantity)
            == SeqTotal(DirectRows(p, s.dcs.next + 1, |p.shipTos|), KeyAmount(key, Quantity))
  {
    var x := s.dcs.next;
    OfficialLinesAddressed(Consignments(p, |p.shipTos|), x + 1, n);
    assert forall l :: l in s.lines.rows ==> !OnMember(a.dcs, s.lines.rows[l], s.groups.next);
    NewGroupTotal(a.dcs, s.lines, ItemLines(PricedItems(p.items, |p.items|), x), DirectRows(p, x + 1, |p.shipTos|),
                  s.groups.next, x, n, key, Quantity);
  }

  lemma NewDirectBalances(s: Store, a: Store, p: CreateParams, n: nat, row: Group)
    requires Tabled(s) && RowsLinked(s) && MembersLinked(s.dcs, s.groups) && DirectTables(s, a, n, row)
    requires WellFormed(p) && n == |Consignments(p, |p.shipTos|)|
    requires a.lines == s.lines.InsertAll(ItemLines(PricedItems(p.items, |p.items|), s.dcs.next)
                                          + DirectRows(p, s.dcs.next + 1, |p.shipTos|))
    ensures GroupBalances(a.dcs, a.lines, s.groups.next)
  {
    forall key
      ensures GroupTotal(a.dcs, a.lines, s.groups.next, Transit, key, Quantity)
              == GroupTotal(a.dcs, a.lines, s.groups.next, Official, key, Quantity)
    {
      NewDirectTotals(s, a, p, n, row, key);
      DirectSidesAgree(p, s.dcs.next, key);
    }
  }

  lemma DirectKeepsParents(s: Store, a: Store, n: nat, row: Group)
    requires s.dcs.Valid() && MetadataLinked(s.dcs, s.transfers) && PlansCarried(s) && DirectTables(s, a, n, row)
    ensures PlansCarried(a)
  {
    forall t | t in a.transfers.rows
      ensures ParentLinesOk(a.lines, a.plans, a.transfers.rows[t].dc, DestinationsOf(a.dests, t))
    {
      KeptParent(s.lines, a.lines, s.plans, a.plans, s.transfers.rows[t].dc, DestinationsOf(s.dests, t));
    }
  }

  lemma DirectKeepsChildren(s: Store, a: Store, n: nat, row: Group)
    requires Tabled(s) && RowsLinked(s) && MetadataLinked(s.dcs, s.transfers) && MembersLinked(s.dcs, s.groups)
    requires ChildrenCarry(s) && DirectTables(s, a, n, row)
    ensures ChildrenCarry(a)
  {
    forall h, l | h in a.groups.rows && l in a.lines.rows && a.groups.rows[h].transfer in a.transfers.rows
                  && a.lines.rows[l].dc == a.transfers.rows[a.groups.rows[h].transfer].dc
      ensures ChildCarries(a, h, l)
    {
      assert h in s.groups.rows && a.lines.rows[l].dc in s.dcs.rows && l in s.lines.rows;
      assert ChildCarries(s, h, l);
      DirectKeepsGroup(s, a, n, row, h);
      KeptChild(s, a, h, l);
    }
  }

  lemma DirectKeepsAccounts(s: Store, p: CreateParams)
    requires Linked(s) && Accounted(s) && WellFormed(p)
    ensures Accounted(AfterDirect(s, p))
  {
    var a, n := AfterDirect(s, p), |Consignments(p, |p.shipTos|)|;
    var row := Group(p.project, |p.shipTos|, Draft, 0, 0);
    AddedTables(s, DirectShipment(p));
    NewDirectLines(s, p);
    DirectTablesKeepAccounts(s, a, p, n, row);
  }

  lemma DirectTablesKeepAccounts(s: Store, a: Store, p: CreateParams, n: nat, row: Group)
    requires Linked(s) && Accounted(s) && WellFormed(p) && DirectTables(s, a, n, row)
    requires n == |Consignments(p, |p.shipTos|)|
    requires a.lines == s.lines.InsertAll(ItemLines(PricedItems(p.items, |p.items|), s.dcs.next)
                                          + DirectRows(p, s.dcs.next + 1, |p.shipTos|))
    ensures Accounted(a)
  {
    forall h | h in a.groups.rows
      ensures GroupBalances(a.dcs, a.lines, h)
    {
      if h == s.groups.next {
        NewDirectBalances(s, a, p, n, row);
      } else {
        DirectKeepsGroup(s, a, n, row, h);
        KeptBalance(s.dcs, a.dcs, s.lines, a.lines, h);
      }
    }
    DirectKeepsParents(s, a, n, row);
    DirectKeepsChildren(s, a, n, row);
  }

  // ---- Transfer DCs ----

  lemma NewTransferKeepsGroup(s: Store, a: Store, n: nat, h: Id)
    requires Tabled(s) && RowsLinked(s) && h in s.groups.rows && NewTransferTables(s, a, n)
    ensures GroupKept(s.dcs, a.dcs, s.lines, a.lines, h)
  {
    assert h != 0;
  }

  lemma NewTransferKeepsBalance(s: Store, a: Store, n: nat)
    requires Tabled(s) && RowsLinked(s) && Balanced(s) && NewTransferTables(s, a, n)
    ensures Balanced(a)
  {
    forall h | h in a.groups.rows
      ensures GroupBalances(a.dcs, a.lines, h)
    {
      NewTransferKeepsGroup(s, a, n, h);
      KeptBalance(s.dcs, a.dcs, s.lines, a.lines, h);
    }
  }

  lemma NewTransferKeepsChild(s: Store, a: Store, n: nat, h: Id, l: Id)
    requires Tabled(s) && RowsLinked(s) && h in s.groups.rows && l in s.lines.rows && NewTransferTables(s, a, n)
    requires ChildCarries(s, h, l)
    ensures h in a.groups.rows && l in a.lines.rows && ChildCarries(a, h, l)
  {
    var t := s.groups.rows[h].transfer;
    NewTransferKeepsGroup(s, a, n, h);
    assert h != 0;
    assert Block(a.dests, t, h) == Block(s.dests, t, h);
    KeptChild(s, a, h, l);
  }

  lemma NewTransferKeepsChildren(s: Store, a: Store, n: nat)
    requires Tabled(s) && RowsLinked(s) && MetadataLinked(s.dcs, s.transfers) && SplitsLinked(s.splits, s.groups, s.transfers)
    requires ChildrenCarry(s) && NewTransferTables(s, a, n)
    ensures ChildrenCarry(a)
  {
    forall h, l | h in a.groups.rows && l in a.lines.rows && a.groups.rows[h].transfer in a.transfers.rows
                  && a.lines.rows[l].dc == a.transfers.rows[a.groups.rows[h].transfer].dc
      ensures ChildCarries(a, h, l)
    {
      OldParentLine(s, a, n, h, l);
      assert ChildCarries(s, h, l);
      NewTransferKeepsChild(s, a, n, h, l);
    }
  }

  lemma OldParentLine(s: Store, a: Store, n: nat, h: Id, l: Id)
    requires Tabled(s) && MetadataLinked(s.dcs, s.transfers) && SplitsLinked(s.splits, s.groups, s.transfers)
    requires NewTransferTables(s, a, n)
    requires h in a.groups.rows && l in a.lines.rows && a.groups.rows[h].transfer in a.transfers.rows
    requires a.lines.rows[l].dc == a.transfers.rows[a.groups.rows[h].transfer].dc
    ensures h in s.groups.rows && s.groups.rows[h].transfer in s.transfers.rows
    ensures l in s.lines.rows && s.lines.rows[l].dc == s.transfers.rows[s.groups.rows[h].transfer].dc
  {
    var t := s.groups.rows[h].transfer;
    assert s.groups.rows[h].split in s.splits.rows;
    assert t in s.transfers.rows && s.transfers.rows[t].dc in s.dcs.rows;
  }

  lemma NewTransferKeepsParent(s: Store, a: Store, n: nat, t: Id)
    requires Tabled(s) && MetadataLinked(s.dcs, s.transfers) && PlansCarried(s) && NewTransferTables(s, a, n)
    requires t in s.transfers.rows
    ensures ParentLinesOk(a.lines, a.plans, a.transfers.rows[t].dc, DestinationsOf(a.dests, t))
  {
    assert DestinationsOf(a.dests, t) == DestinationsOf(s.dests, t);
    KeptParent(s.lines, a.lines, s.plans, a.plans, s.transfers.rows[t].dc, DestinationsOf(s.dests, t));
  }

  /** The line table after the priced lines of a new transfer DC x were added. */
  function WithParent(lines: Table<Line>, items: seq<ItemParams>, x: Id): Table<Line> {
    lines.InsertAll(ItemLines(PricedItems(items, |items|), x))
  }

  /** The item behind a line of a new transfer DC. */
  lemma NewParentLine(lines: Table<Line>, items: seq<ItemParams>, x: Id, l: Id) returns (k: nat, j: nat)
    requires lines.Valid() && l in LinesOf(WithParent(lines, items, x), x) && forall m :: m in lines.rows ==> lines.rows[m].dc != x
    ensures k < |PricedItems(items, |items|)| && j < |items| && l == lines.next + k
    ensures PricedItems(items, |items|)[k].line.order == j + 1
    ensures WithParent(lines, items, x).rows[l] == PricedFrom(items[j], j + 1).(dc := x)
  {
    PricedItemsExactly(items, |items|);
    Inserted(lines, ItemLines(PricedItems(items, |items|), x));
    assert l !in lines.rows;
    k := l - lines.next;
    InsertAllAt(lines, ItemLines(PricedItems(items, |items|), x), k);
    assert 0 < PricedItems(items, |items|)[k].line.order;
    j := PricedItems(items, |items|)[k].line.order - 1;
  }

  lemma NewParentDistinct(lines: Table<Line>, items: seq<ItemParams>, x: Id, l: Id, m: Id)
    requires lines.Valid() && forall r :: r in lines.rows ==> lines.rows[r].dc != x
    requires forall j, k :: 0 <= j < k < |items| ==> items[j].key != items[k].key
    requires l in LinesOf(WithParent(lines, items, x), x) && m in LinesOf(WithParent(lines, items, x), x)
    requires WithParent(lines, items, x).rows[l].key == WithParent(lines, items, x).rows[m].key
    ensures l == m
  {
    var k, j := NewParentLine(lines, items, x, l);
    var k', j' := NewParentLine(lines, items, x, m);
    assert items[j].key == items[j'].key;
    PricedItemsOrdered(items, |items|);
  }

  lemma NewParentCarries(s: Store, p: CreateParams, l: Id)
    requires Tabled(s) && RowsLinked(s) && WellFormed(p) && l in LinesOf(WithParent(s.lines, p.items, s.dcs.next), s.dcs.next)
    ensures CarriesPlan(WithParent(s.lines, p.items, s.dcs.next).rows[l], s.plans.InsertAll(PlanRows(p, s.dests.next, |p.shipTos|)),
                        IdRange(s.dests.next, |p.shipTos|))
  {
    var k, j := NewParentLine(s.lines, p.items, s.dcs.next, l);
    PlannedIsTotal(p, s.plans, s.dests.next, j);
    PricedCarries(WithParent(s.lines, p.items, s.dcs.next).rows[l], p.items[j], j + 1, s.dcs.next,
                  s.plans.InsertAll(PlanRows(p, s.dests.next, |p.shipTos|)), IdRange(s.dests.next, |p.shipTos|));
  }

  lemma PricedCarries(line: Line, it: ItemParams, order: nat, dc: Id, plans: Table<Plan>, ds: set<Id>)
    requires line == PricedFrom(it, order).(dc := dc) && PlannedFor(plans, ds, it.key) == it.total as real
    ensures CarriesPlan(line, plans, ds)
  {
  }

  lemma NewParentCovers(s: Store, p: CreateParams, r: Id)
    requires Tabled(s) && RowsLinked(s) && WellFormed(p)
    requires var plans := s.plans.InsertAll(PlanRows(p, s.dests.next, |p.shipTos|));
             r in plans.rows && plans.rows[r].destination in IdRange(s.dests.next, |p.shipTos|)
    ensures var row := s.plans.InsertAll(PlanRows(p, s.dests.next, |p.shipTos|)).rows[r];
      var lines := WithParent(s.lines, p.items, s.dcs.next);
      row.quantity >= 0 && exists l :: l in LinesOf(lines, s.dcs.next) && lines.rows[l].key == row.key
  {
    var first, n := s.dests.next, |p.shipTos|;
    var rows := PlanRows(p, first, n);
    InsertAllExtends(s.plans, rows);
    assert r !in s.plans.rows;
    var row := s.plans.InsertAll(rows).rows[r];
    RowsFromPlan(p, first, n);
    PlanRowsPositive(p, first, n);
    var j := ItemOfPlan(p, first, n, row);
    QuantityAtSign(p, j, row.destination - first);
    QuantityToSign(p, j, n);
    LineOfItem(s.lines, p.items, s.dcs.next, j);
  }

  lemma ItemOfPlan(p: CreateParams, first: Id, n: nat, row: Plan) returns (j: nat)
    requires FromPlan(p, first, n, row)
    ensures j < |p.items| && p.items[j].key == row.key && p.items[j].QuantityAt(row.destination - first) == row.quantity
  {
    var k :| 0 <= k < |p.items| && p.items[k].key == row.key && p.items[k].QuantityAt(row.destination - first) == row.quantity;
    j := k;
  }

  lemma {:induction false} ColumnNonZero(items: seq<ItemParams>, dest: Id, i: nat, n: nat)
    requires n <= |items|
    ensures forall r :: r in ColumnPlans(items, dest, i, n) ==> r.quantity != 0
  {
    if n > 0 {
      ColumnNonZero(items, dest, i, n - 1);
    }
  }

  lemma {:induction false} PlanRowsPositive(p: CreateParams, first: Id, n: nat)
    requires n <= |p.shipTos| && forall i :: 0 <= i < n ==> p.shipTos[i] != 0
    ensures forall r :: r in PlanRows(p, first, n) ==> r.quantity != 0
  {
    if n == 0 {
    } else {
      hide PlanRows, ColumnPlans, DestinationRows;
      PlanRowsPositive(p, first, n - 1);
      PlanRowsStep(p, first, n);
      ColumnNonZero(p.items, first + (n - 1), n - 1, |p.items|);
    }
  }

  lemma LineOfItem(lines: Table<Line>, items: seq<ItemParams>, x: Id, j: nat)
    requires lines.Valid() && j < |items| && items[j].total != 0
    ensures var u := WithParent(lines, items, x);
      exists l :: l in LinesOf(u, x) && u.rows[l].key == items[j].key
  {
    var k := PricedItemFound(items, |items|, j);
    InsertAllAt(lines, ItemLines(PricedItems(items, |items|), x), k);
    assert lines.next + k in LinesOf(WithParent(lines, items, x), x);
  }

  lemma NewParentOk(s: Store, p: CreateParams, lines: Table<Line>, plans: Table<Plan>)
    requires Tabled(s) && RowsLinked(s) && WellFormed(p)
    requires lines == WithParent(s.lines, p.items, s.dcs.next) && plans == s.plans.InsertAll(PlanRows(p, s.dests.next, |p.shipTos|))
    ensures ParentLinesOk(lines, plans, s.dcs.next, IdRange(s.dests.next, |p.shipTos|))
  {
    var dc, ds := s.dcs.next, IdRange(s.dests.next, |p.shipTos|);
    forall l | l in LinesOf(lines, dc)
      ensures CarriesPlan(lines.rows[l], plans, ds)
    {
      NewParentCarries(s, p, l);
    }
    forall l, m | l in LinesOf(lines, dc) && m in LinesOf(lines, dc) && lines.rows[l].key == lines.rows[m].key
      ensures l == m
    {
      NewParentDistinct(s.lines, p.items, dc, l, m);
    }
    forall r | r in plans.rows && plans.rows[r].destination in ds
      ensures plans.rows[r].quantity >= 0
      ensures exists l :: l in LinesOf(lines, dc) && lines.rows[l].key == plans.rows[r].key
    {
      NewParentCovers(s, p, r);
    }
  }

  lemma NewDestinations(s: Store, a: Store, n: nat)
    requires Tabled(s) && RowsLinked(s) && NewTransferTables(s, a, n)
    ensures DestinationsOf(a.dests, s.transfers.next) == IdRange(s.dests.next, n)
  {
  }

  lemma NewTransferKeepsParents(s: Store, a: Store, n: nat)
    requires Tabled(s) && RowsLinked(s) && MetadataLinked(s.dcs, s.transfers) && PlansCarried(s)
    requires NewTransferTables(s, a, n) && ParentLinesOk(a.lines, a.plans, s.dcs.next, IdRange(s.dests.next, n))
    ensures PlansCarried(a)
  {
    forall t | t in a.transfers.rows
      ensures ParentLinesOk(a.lines, a.plans, a.transfers.rows[t].dc, DestinationsOf(a.dests, t))
    {
      if t == s.transfers.next {
        NewDestinations(s, a, n);
      } else {
        NewTransferKeepsParent(s, a, n, t);
      }
    }
  }

  lemma NewTransferKeepsAccounts(s: Store, p: CreateParams)
    requires Linked(s) && Accounted(s) && WellFormed(p)
    ensures Accounted(AfterTransfer(s, p))
  {
    var a := AfterTransfer(s, p);
    CreatedTransferTables(s, p);
    NewParentOk(s, p, a.lines, a.plans);
    NewTransferKeepsParents(s, a, |p.shipTos|);
    NewTransferKeepsChildren(s, a, |p.shipTos|);
    NewTransferKeepsBalance(s, a, |p.shipTos|);
  }
}
