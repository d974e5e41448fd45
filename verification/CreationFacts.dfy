/** Creating and issuing DCs keeps the links and the counts. */
module CreationFacts {
  import opened Tables
  import opened Records
  import opened Shipments
  import opened CreationSpec
  import opened IssueSpec
  import opened Invariants
  import opened ShipmentFacts
  import opened SplitFacts
  import opened RemovalFacts

  // ---- Issuing ----

  lemma IssueKeepsChallanLinks(dcs: Table<Challan>, groups: Table<Group>, transfers: Table<TransferDc>, g: Id)
    requires MetadataLinked(dcs, transfers) && MembersLinked(dcs, groups) && GroupsShaped(dcs, groups) && dcs.Valid()
    requires g in groups.rows && g != 0
    ensures var u := IssueAll(dcs, Members(dcs, g)); var gs := groups.Update(g, groups.rows[g].(status := Issued));
      u.Valid() && MetadataLinked(u, transfers) && MembersLinked(u, gs) && GroupsShaped(u, gs)
  {
    var u, gs := IssueAll(dcs, Members(dcs, g)), groups.Update(g, groups.rows[g].(status := Issued));
    forall h | h in gs.rows
      ensures TransitMembers(u, h) == TransitMembers(dcs, h)
    {
    }
  }

  lemma IssueKeepsGroups(s: Store, g: Id)
    requires SplitsLinked(s.splits, s.groups, s.transfers) && BlocksLinked(s.dests, s.groups) && g in s.groups.rows
    ensures var a := AfterGroupIssue(s, g);
      SplitsLinked(a.splits, a.groups, a.transfers) && BlocksLinked(a.dests, a.groups)
  {
  }

  lemma IssueKeepsRows(s: Store, g: Id)
    requires Tabled(s) && RowsLinked(s) && g in s.groups.rows
    ensures Tabled(AfterGroupIssue(s, g)) && RowsLinked(AfterGroupIssue(s, g))
  {
  }

  lemma GroupIssueKeepsLinks(s: Store, g: Id)
    requires Linked(s) && g in s.groups.rows
    ensures Linked(AfterGroupIssue(s, g))
  {
    IssueKeepsChallanLinks(s.dcs, s.groups, s.transfers, g);
    IssueKeepsGroups(s, g);
    IssueKeepsRows(s, g);
  }

  lemma TransferIssueKeepsLinks(s: Store, dc: Id)
    requires Linked(s) && dc in s.dcs.rows && s.dcs.rows[dc].kind == Transfer
    ensures Linked(AfterTransferIssue(s, dc))
  {
    RestatusKeeps(s.dcs, AfterTransferIssue(s, dc).dcs, dc, s.transfers, s.groups);
  }

  lemma TransferIssueKeepsProgress(s: Store, dc: Id)
    requires MetadataLinked(s.dcs, s.transfers) && Progress(s.dcs, s.transfers, s.dests)
    requires dc in s.dcs.rows && s.dcs.rows[dc].kind == Transfer && s.dcs.rows[dc].status == Draft
    ensures var a := AfterTransferIssue(s, dc); MetadataRows(a.dcs, a.transfers) && Progress(a.dcs, a.transfers, a.dests)
  {
    var a := AfterTransferIssue(s, dc);
    forall u | u in a.transfers.rows
      ensures OnTrack(a.dcs, a.transfers, a.dests, u)
    {
      assert OnTrack(s.dcs, s.transfers, s.dests, u);
    }
  }

  // ---- Direct shipments ----

  lemma DirectKeepsChallanLinks(s: Store, u: Table<Challan>, n: nat, row: Group)
    requires Linked(s) && ChallansAdded(s.dcs, u, s.groups.next, n) && row.status == Draft
    ensures MetadataLinked(u, s.transfers) && MembersLinked(u, s.groups.Insert(row)) && GroupsShaped(u, s.groups.Insert(row))
  {
    AddKeepsMetadata(s.dcs, u, s.groups.next, n, s.transfers);
    AddKeepsMembers(s.dcs, u, n, s.groups, row);
    AddKeepsShape(s.dcs, u, n, s.groups, row);
  }

  lemma DirectKeepsGroups(s: Store, row: Group)
    requires s.groups.Valid() && SplitsLinked(s.splits, s.groups, s.transfers) && BlocksLinked(s.dests, s.groups)
    requires row.transfer == 0
    ensures SplitsLinked(s.splits, s.groups.Insert(row), s.transfers) && BlocksLinked(s.dests, s.groups.Insert(row))
  {
  }

  /** a is s with one more group and its DCs, nothing else. */
  ghost predicate DirectTables(s: Store, a: Store, n: nat, row: Group) {
    && ChallansAdded(s.dcs, a.dcs, s.groups.next, n)
    && LinesWithin(s.lines, a.lines, s.dcs.next, s.dcs.next + n)
    && SerialsWithin(s.serials, a.serials, a.lines)
    && a.transfers == s.transfers && a.dests == s.dests && a.plans == s.plans && a.splits == s.splits
    && a.groups == s.groups.Insert(row) && row.status == Draft && row.transfer == 0
  }

  lemma AddedTables(s: Store, sh: Shipment)
    requires Tabled(s) && sh.transfer == 0
    ensures DirectTables(s, AddShipment(s, sh), |sh.consignments|, Group(sh.project, sh.locations, Draft, 0, 0))
  {
    AddedChallans(s, sh);
    AddedLines(s, sh);
    AddedSerials(s, sh);
  }

  lemma DirectKeepsRows(s: Store, a: Store, n: nat, row: Group)
    requires Tabled(s) && RowsLinked(s) && DirectTables(s, a, n, row)
    ensures Tabled(a) && RowsLinked(a)
  {
  }

  lemma DirectKeepsLinks(s: Store, a: Store, n: nat, row: Group)
    requires Linked(s) && DirectTables(s, a, n, row)
    ensures Linked(a)
  {
    DirectKeepsChallanLinks(s, a.dcs, n, row);
    DirectKeepsGroups(s, row);
    DirectKeepsRows(s, a, n, row);
  }

  // ---- Transfer DCs ----

  lemma {:induction false} DestinationRowsFor(shipTos: seq<Id>, t: Id, n: nat)
    requires n <= |shipTos| && forall i :: 0 <= i < n ==> shipTos[i] != 0
    ensures var rows := DestinationRows(shipTos, t, n);
      |rows| == n && forall i :: 0 <= i < n ==> rows[i] == Destination(t, shipTos[i], false, 0)
  {
    if n > 0 {
      DestinationRowsFor(shipTos, t, n - 1);
    }
  }

  lemma {:induction false} ColumnPlansFor(items: seq<ItemParams>, dest: Id, i: nat, n: nat)
    requires n <= |items|
    ensures forall r :: r in ColumnPlans(items, dest, i, n) ==> r.destination == dest
  {
    if n > 0 {
      ColumnPlansFor(items, dest, i, n - 1);
    }
  }

  lemma {:induction false} PlanRowsFor(p: CreateParams, first: Id, n: nat)
    requires n <= |p.shipTos| && forall i :: 0 <= i < n ==> p.shipTos[i] != 0
    ensures forall r :: r in PlanRows(p, first, n) ==> first <= r.destination < first + n
  {
    if n > 0 {
      PlanRowsFor(p, first, n - 1);
      assert |DestinationRows(p.shipTos, 0, n - 1)| == n - 1 by {
        DestinationRowsFor(p.shipTos, 0, n - 1);
      }
      ColumnPlansFor(p.items, first + (n - 1), n - 1, |p.items|);
    }
  }

  /** A transfer DC whose creation failed for want of destinations is left without metadata. */
  lemma WithoutPlanUnlinked(s: Store, p: CreateParams)
    requires Linked(s)
    ensures var a := TransferWithoutPlan(s, p);
      && s.dcs.next in a.dcs.rows && a.dcs.rows[s.dcs.next].kind == Transfer && MetadataOf(a.transfers, s.dcs.next) == {}
      && !MetadataLinked(a.dcs, a.transfers)
  {
    hide Table.InsertAll, PricedItems, SerialRows, ItemLines;
    assert s.dcs.next !in s.dcs.rows;
    assert MetadataOf(s.transfers, s.dcs.next) == {};
  }

  /** a is s with a new draft transfer DC x, metadata t and n unsplit destinations. */
  ghost predicate NewTransferTables(s: Store, a: Store, n: nat) {
    var x, t := s.dcs.next, s.transfers.next;
    && a.dcs.Valid() && a.dcs.rows.Keys == s.dcs.rows.Keys + {x}
    && (forall d :: d in s.dcs.rows ==> a.dcs.rows[d] == s.dcs.rows[d])
    && a.dcs.rows[x].kind == Transfer && a.dcs.rows[x].status == Draft && a.dcs.rows[x].group == 0
    && LinesWithin(s.lines, a.lines, x, x) && SerialsWithin(s.serials, a.serials, a.lines)
    && a.transfers == s.transfers.Insert(TransferDc(x, n, 0))
    && a.dests.Valid()
    && (forall d :: d in a.dests.rows <==> d in s.dests.rows || s.dests.next <= d < s.dests.next + n)
    && (forall d :: d in s.dests.rows ==> a.dests.rows[d] == s.dests.rows[d])
    && (forall d :: d in a.dests.rows && d !in s.dests.rows ==>
          a.dests.rows[d].transfer == t && !a.dests.rows[d].isSplit && a.dests.rows[d].splitGroup == 0)
    && a.plans.Valid()
    && (forall p :: p in s.plans.rows ==> p in a.plans.rows && a.plans.rows[p] == s.plans.rows[p])
    && (forall p :: p in a.plans.rows && p !in s.plans.rows ==>
          s.dests.next <= a.plans.rows[p].destination < s.dests.next + n)
    && a.splits == s.splits && a.groups == s.groups
  }

  lemma NewTransferLines(s: Store, p: CreateParams)
    requires Tabled(s)
    ensures LinesWithin(s.lines, AfterTransfer(s, p).lines, s.dcs.next, s.dcs.next)
    ensures SerialsWithin(s.serials, AfterTransfer(s, p).serials, AfterTransfer(s, p).lines)
  {
    var items := PricedItems(p.items, |p.items|);
    InsertAllExtends(s.lines, ItemLines(items, s.dcs.next));
    InsertAllExtends(s.serials, SerialRows(items, p.project, s.lines.next, |items|));
    SerialRowsAddressed(items, p.project, s.lines.next, |items|);
    Inserted(s.lines, ItemLines(items, s.dcs.next));
  }

  lemma InsertedDestinations(s: Store, p: CreateParams)
    requires s.dests.Valid() && s.plans.Valid() && forall i :: 0 <= i < |p.shipTos| ==> p.shipTos[i] != 0
    ensures var a := AfterTransfer(s, p); var n := |p.shipTos|;
      && a.dests.Valid()
      && (forall d :: d in a.dests.rows <==> d in s.dests.rows || s.dests.next <= d < s.dests.next + n)
      && (forall d :: d in s.dests.rows ==> a.dests.rows[d] == s.dests.rows[d])
      && (forall d :: d in a.dests.rows && d !in s.dests.rows ==>
            a.dests.rows[d].transfer == s.transfers.next && !a.dests.rows[d].isSplit && a.dests.rows[d].splitGroup == 0)
  {
    var rows := DestinationRows(p.shipTos, s.transfers.next, |p.shipTos|);
    DestinationRowsFor(p.shipTos, s.transfers.next, |p.shipTos|);
    assert AfterTransfer(s, p).dests == s.dests.InsertAll(rows);
    Inserted(s.dests, rows);
  }

  lemma InsertedPlans(s: Store, p: CreateParams)
    requires s.plans.Valid() && forall i :: 0 <= i < |p.shipTos| ==> p.shipTos[i] != 0
    ensures var a := AfterTransfer(s, p);
      && a.plans.Valid()
      && (forall r :: r in s.plans.rows ==> r in a.plans.rows && a.plans.rows[r] == s.plans.rows[r])
      && (forall r :: r in a.plans.rows && r !in s.plans.rows ==>
            s.dests.next <= a.plans.rows[r].destination < s.dests.next + |p.shipTos|)
  {
    PlanRowsFor(p, s.dests.next, |p.shipTos|);
    InsertAllExtends(s.plans, PlanRows(p, s.dests.next, |p.shipTos|));
  }

  lemma CreatedTransferTables(s: Store, p: CreateParams)
    requires Tabled(s) && forall i :: 0 <= i < |p.shipTos| ==> p.shipTos[i] != 0
    ensures NewTransferTables(s, AfterTransfer(s, p), |p.shipTos|)
  {
    NewTransferLines(s, p);
    InsertedDestinations(s, p);
    InsertedPlans(s, p);
  }

  lemma NewTransferKeepsRows(s: Store, a: Store, n: nat)
    requires Tabled(s) && RowsLinked(s) && NewTransferTables(s, a, n)
    ensures Tabled(a) && RowsLinked(a)
  {
  }

  lemma NewTransferKeepsMetadata(s: Store, a: Store, n: nat)
    requires Tabled(s) && MetadataLinked(s.dcs, s.transfers) && NewTransferTables(s, a, n)
    ensures MetadataLinked(a.dcs, a.transfers)
  {
    forall d | d in a.dcs.rows && a.dcs.rows[d].kind == Transfer
      ensures MetadataOf(a.transfers, d) != {}
    {
      if d == s.dcs.next {
        assert s.transfers.next in MetadataOf(a.transfers, d);
      } else {
        var t :| t in MetadataOf(s.transfers, d);
        assert t in MetadataOf(a.transfers, d);
      }
    }
  }

  lemma NewTransferKeepsMembers(s: Store, a: Store, n: nat)
    requires Tabled(s) && MembersLinked(s.dcs, s.groups) && GroupsShaped(s.dcs, s.groups) && NewTransferTables(s, a, n)
    ensures MembersLinked(a.dcs, a.groups) && GroupsShaped(a.dcs, a.groups)
  {
    forall g | g in s.groups.rows
      ensures TransitMembers(a.dcs, g) == TransitMembers(s.dcs, g)
    {
    }
  }

  lemma NewTransferKeepsGroups(s: Store, a: Store, n: nat)
    requires Tabled(s) && SplitsLinked(s.splits, s.groups, s.transfers) && BlocksLinked(s.dests, s.groups)
    requires NewTransferTables(s, a, n)
    ensures SplitsLinked(a.splits, a.groups, a.transfers) && BlocksLinked(a.dests, a.groups)
  {
    forall t, g | g in s.groups.rows
      ensures Block(a.dests, t, g) == Block(s.dests, t, g)
    {
    }
  }

  lemma NewTransferKeepsLinks(s: Store, a: Store, n: nat)
    requires Linked(s) && NewTransferTables(s, a, n)
    ensures Linked(a)
  {
    NewTransferKeepsRows(s, a, n);
    NewTransferKeepsMetadata(s, a, n);
    NewTransferKeepsMembers(s, a, n);
    NewTransferKeepsGroups(s, a, n);
  }

  lemma RangeSize(first: Id, n: nat)
    ensures |IdRange(first, n)| == n
  {
  }

  lemma NewTransferOnTrack(s: Store, a: Store, n: nat)
    requires Tabled(s) && RowsLinked(s) && NewTransferTables(s, a, n) && 0 < n
    ensures OnTrack(a.dcs, a.transfers, a.dests, s.transfers.next)
  {
    var u := s.transfers.next;
    assert DestinationsOf(a.dests, u) == IdRange(s.dests.next, n);
    RangeSize(s.dests.next, n);
    assert Blocks(a.dests, u) == {};
  }

  lemma OldTransferOnTrack(s: Store, a: Store, n: nat, u: Id)
    requires s.transfers.Valid() && NewTransferTables(s, a, n)
    requires u in s.transfers.rows && s.transfers.rows[u].dc in s.dcs.rows && OnTrack(s.dcs, s.transfers, s.dests, u)
    ensures OnTrack(a.dcs, a.transfers, a.dests, u)
  {
    assert DestinationsOf(a.dests, u) == DestinationsOf(s.dests, u);
    assert Blocks(a.dests, u) == Blocks(s.dests, u);
  }

  lemma NewTransferKeepsProgress(s: Store, a: Store, n: nat)
    requires Tabled(s) && RowsLinked(s) && MetadataLinked(s.dcs, s.transfers) && Progress(s.dcs, s.transfers, s.dests)
    requires NewTransferTables(s, a, n) && 0 < n
    ensures MetadataRows(a.dcs, a.transfers) && Progress(a.dcs, a.transfers, a.dests)
  {
    forall u | u in a.transfers.rows
      ensures OnTrack(a.dcs, a.transfers, a.dests, u)
    {
      if u == s.transfers.next {
        NewTransferOnTrack(s, a, n);
      } else {
        OldTransferOnTrack(s, a, n, u);
      }
    }
  }
}
