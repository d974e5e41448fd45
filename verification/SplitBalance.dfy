/** Creating a split keeps the accounts: parents, children and groups. */
module SplitBalance {
  import opened Tables
  import opened Sums
  import opened Records
  import opened Shipments
  import opened SplitSpec
  import opened Invariants
  import opened ShipmentFacts
  import opened SplitFacts
  import opened Accounts
  import opened SplitAccounts

  lemma ParentKeys(lines: Table<Line>, plans: Table<Plan>, dc: Id, ds: set<Id>)
    requires ParentLinesOk(lines, plans, dc, ds)
    ensures DistinctKeys(lines, Ascending(LinesOf(lines, dc)))
  {
    var ids := Ascending(LinesOf(lines, dc));
    assert forall l :: l in ids ==> l in LinesOf(lines, dc);
    assert forall l :: l in ids ==> l in lines.rows;
    forall i, j | 0 <= i < j < |ids|
      ensures lines.rows[ids[i]].key != lines.rows[ids[j]].key
    {
      assert ids[i] in LinesOf(lines, dc) && ids[j] in LinesOf(lines, dc);
    }
  }

  lemma ParentCovers(lines: Table<Line>, plans: Table<Plan>, dc: Id, all: set<Id>, ds: seq<Id>)
    requires ParentLinesOk(lines, plans, dc, all) && forall d :: d in ds ==> d in all
    ensures PlansCover(lines, plans, Ascending(LinesOf(lines, dc)), ds)
  {
    var ids := Ascending(LinesOf(lines, dc));
    forall d, key | d in ds
      ensures Planned(plans, d, key) >= 0
      ensures Planned(plans, d, key) != 0 ==> exists l :: l in ids && l in lines.rows && lines.rows[l].key == key
    {
      var found := PlansFor(plans, d, key);
      if found != {} {
        var p := Least(found);
        assert p in plans.rows && plans.rows[p].destination in all;
        var l :| l in LinesOf(lines, dc) && lines.rows[l].key == key;
        assert l in ids;
      }
    }
  }

  // ---- Groups that were there before ----

  lemma SplitKeepsGroup(s: Store, a: Store, u: Table<Challan>, dc: Id, ds: seq<Id>, t: Id, row: Group, h: Id)
    requires Tabled(s) && RowsLinked(s) && MembersLinked(s.dcs, s.groups) && h in s.groups.rows
    requires t in s.transfers.rows && SplitTables(s, a, u, dc, ds, t, row)
    ensures GroupKept(s.dcs, a.dcs, s.lines, a.lines, h)
  {
    assert h != s.groups.next && h != 0;
  }

  lemma SplitKeepsParents(s: Store, a: Store, u: Table<Challan>, dc: Id, ds: seq<Id>, t: Id, row: Group)
    requires Tabled(s) && MetadataLinked(s.dcs, s.transfers) && PlansCarried(s)
    requires t in s.transfers.rows && SplitTables(s, a, u, dc, ds, t, row)
    ensures PlansCarried(a)
  {
    MarkKeepsRows(s.dests, ds, s.groups.next);
    forall r | r in a.transfers.rows
      ensures ParentLinesOk(a.lines, a.plans, a.transfers.rows[r].dc, DestinationsOf(a.dests, r))
    {
      assert DestinationsOf(a.dests, r) == DestinationsOf(s.dests, r);
      assert a.transfers.rows[r].dc == s.transfers.rows[r].dc;
      KeptParent(s.lines, a.lines, s.plans, a.plans, s.transfers.rows[r].dc, DestinationsOf(s.dests, r));
    }
  }

  lemma SplitKeepsChild(s: Store, a: Store, u: Table<Challan>, dc: Id, ds: seq<Id>, t: Id, row: Group, h: Id, l: Id)
    requires Tabled(s) && RowsLinked(s) && MembersLinked(s.dcs, s.groups) && BlocksLinked(s.dests, s.groups)
    requires Selectable(s.dests, ds, t) && t in s.transfers.rows && SplitTables(s, a, u, dc, ds, t, row)
    requires h in s.groups.rows && l in s.lines.rows && ChildCarries(s, h, l)
    ensures h in a.groups.rows && l in a.lines.rows && ChildCarries(a, h, l)
  {
    SplitKeepsGroup(s, a, u, dc, ds, t, row, h);
    MarkedBlock(s.dests, s.groups, ds, t, s.groups.next);
    KeptChild(s, a, h, l);
  }

  // ---- The new group ----

  lemma TransitPlaced(s: Store, p: SplitParams, ids: seq<Id>, x: Id)
    requires forall l :: l in ids ==> l in s.lines.rows
    ensures forall r :: r in TransitRows(s, p, ids, |ids|, x) ==> r.dc == x
  {
  }

  /** The new rows as seen from the final tables. */
  ghost predicate NewRows(s: Store, a: Store, p: SplitParams, ids: seq<Id>, n: nat, official: seq<Line>) {
    var x, g := s.dcs.next, s.groups.next;
    && (forall l :: l in ids ==> l in s.lines.rows)
    && s.lines.Valid()
    && a.lines == s.lines.InsertAll(TransitRows(s, p, ids, |ids|, x) + official)
    && (forall r :: r in TransitRows(s, p, ids, |ids|, x) ==> r.dc == x)
    && (forall r :: r in official ==> x < r.dc <= x + n)
    && (forall l :: l in s.lines.rows ==> !OnMember(a.dcs, s.lines.rows[l], g))
    && (forall d :: x <= d <= x + n ==>
          d in a.dcs.rows && a.dcs.rows[d].group == g && a.dcs.rows[d].kind == if d == x then Transit else Official)
  }

  lemma NewRowsTotal(s: Store, a: Store, p: SplitParams, ids: seq<Id>, n: nat, official: seq<Line>, key: SourceKey, m: Measure)
    requires NewRows(s, a, p, ids, n, official)
    ensures GroupTotal(a.dcs, a.lines, s.groups.next, Transit, key, m)
            == SeqTotal(TransitRows(s, p, ids, |ids|, s.dcs.next), KeyAmount(key, m))
    ensures GroupTotal(a.dcs, a.lines, s.groups.next, Official, key, m) == SeqTotal(official, KeyAmount(key, m))
  {
    NewGroupTotal(a.dcs, s.lines, TransitRows(s, p, ids, |ids|, s.dcs.next), official, s.groups.next, s.dcs.next, n, key, m);
  }

  lemma NewSidesAgree(s: Store, p: SplitParams, ids: seq<Id>, x: Id, key: SourceKey)
    requires DistinctKeys(s.lines, ids) && PlansCover(s.lines, s.plans, ids, p.dests)
    requires forall d :: d in p.dests ==> d in s.dests.rows
    ensures var cs := SplitConsignments(s, Picked(s.lines, s.plans, ids, p.dests, |ids|), p.dests);
      SeqTotal(TransitRows(s, p, ids, |ids|, x), KeyAmount(key, Quantity))
      == SeqTotal(OfficialLines(cs, x + 1, |cs|), KeyAmount(key, Quantity))
  {
    TransitTotal(s, p, ids, x, key);
    OfficialTotals(s, ids, p.dests, x + 1, key);
  }

  lemma NewKeyBalances(s: Store, a: Store, p: SplitParams, ids: seq<Id>, cs: seq<Consignment>, key: SourceKey)
    requires DistinctKeys(s.lines, ids) && PlansCover(s.lines, s.plans, ids, p.dests)
    requires forall d :: d in p.dests ==> d in s.dests.rows
    requires cs == SplitConsignments(s, Picked(s.lines, s.plans, ids, p.dests, |ids|), p.dests)
    requires NewRows(s, a, p, ids, |cs|, OfficialLines(cs, s.dcs.next + 1, |cs|))
    ensures GroupTotal(a.dcs, a.lines, s.groups.next, Transit, key, Quantity)
            == GroupTotal(a.dcs, a.lines, s.groups.next, Official, key, Quantity)
  {
    hide *;
    NewRowsTotal(s, a, p, ids, |cs|, OfficialLines(cs, s.dcs.next + 1, |cs|), key, Quantity);
    NewSidesAgree(s, p, ids, s.dcs.next, key);
  }

  lemma NewGroupBalances(s: Store, a: Store, p: SplitParams, ids: seq<Id>, cs: seq<Consignment>)
    requires DistinctKeys(s.lines, ids) && PlansCover(s.lines, s.plans, ids, p.dests)
    requires forall d :: d in p.dests ==> d in s.dests.rows
    requires cs == SplitConsignments(s, Picked(s.lines, s.plans, ids, p.dests, |ids|), p.dests)
    requires NewRows(s, a, p, ids, |cs|, OfficialLines(cs, s.dcs.next + 1, |cs|))
    ensures GroupBalances(a.dcs, a.lines, s.groups.next)
  {
    forall key
      ensures GroupTotal(a.dcs, a.lines, s.groups.next, Transit, key, Quantity)
              == GroupTotal(a.dcs, a.lines, s.groups.next, Official, key, Quantity)
    {
      NewKeyBalances(s, a, p, ids, cs, key);
    }
  }

  lemma PlannedShare(s: Store, p: SplitParams, ids: seq<Id>, x: Id, i: nat, m: Measure)
    requires DistinctKeys(s.lines, ids) && PlansCover(s.lines, s.plans, ids, p.dests) && i < |ids|
    requires SplitAccounts.NoRepeats(p.dests)
    ensures var row := s.lines.rows[ids[i]];
      SeqTotal(TransitRows(s, p, ids, |ids|, x), KeyAmount(row.key, m))
      == Scaled(row, m, PlannedFor(s.plans, IdsIn(p.dests), row.key))
  {
    var key := s.lines.rows[ids[i]].key;
    PlannedTotalIsSum(s.plans, p.dests, key, |p.dests|);
    assert p.dests[..|p.dests|] == p.dests;
    PlannedTotalSign(s.plans, p.dests, key, |p.dests|);
    TransitLineTotal(s, p, ids, x, i, m);
  }

  lemma NewGroupCarries(s: Store, a: Store, p: SplitParams, ids: seq<Id>, n: nat, official: seq<Line>, i: nat)
    requires DistinctKeys(s.lines, ids) && PlansCover(s.lines, s.plans, ids, p.dests) && i < |ids|
    requires NewRows(s, a, p, ids, n, official) && SplitAccounts.NoRepeats(p.dests)
    ensures var row := s.lines.rows[ids[i]];
      Carries(a.dcs, a.lines, s.groups.next, row, PlannedFor(s.plans, IdsIn(p.dests), row.key))
  {
    var row := s.lines.rows[ids[i]];
    forall m
      ensures GroupTotal(a.dcs, a.lines, s.groups.next, Transit, row.key, m)
              == Scaled(row, m, PlannedFor(s.plans, IdsIn(p.dests), row.key))
    {
      NewRowsTotal(s, a, p, ids, n, official, row.key, m);
      PlannedShare(s, p, ids, s.dcs.next, i, m);
    }
  }

  // ---- Putting it together ----

  lemma OldLinesElsewhere(s: Store, a: Store, u: Table<Challan>, dc: Id, ds: seq<Id>, t: Id, row: Group)
    requires Tabled(s) && RowsLinked(s) && MembersLinked(s.dcs, s.groups) && t in s.transfers.rows
    requires SplitTables(s, a, u, dc, ds, t, row)
    ensures forall l :: l in s.lines.rows ==> !OnMember(a.dcs, s.lines.rows[l], s.groups.next)
  {
    assert s.groups.next !in s.groups.rows && s.groups.next != 0;
  }

  lemma NewMembersPlaced(s: Store, a: Store, u: Table<Challan>, dc: Id, ds: seq<Id>, t: Id, row: Group)
    requires s.dcs.Valid() && t in s.transfers.rows && dc in s.dcs.rows && SplitTables(s, a, u, dc, ds, t, row)
    ensures forall d :: s.dcs.next <= d <= s.dcs.next + |ds| ==>
      d in a.dcs.rows && a.dcs.rows[d].group == s.groups.next
      && a.dcs.rows[d].kind == if d == s.dcs.next then Transit else Official
  {
  }

  lemma PlacedRows(s: Store, a: Store, p: SplitParams, ids: seq<Id>, n: nat, official: seq<Line>)
    requires s.lines.Valid() && forall l :: l in ids ==> l in s.lines.rows
    requires a.lines == s.lines.InsertAll(TransitRows(s, p, ids, |ids|, s.dcs.next) + official)
    requires forall r :: r in official ==> s.dcs.next + 1 <= r.dc < s.dcs.next + 1 + n
    requires forall l :: l in s.lines.rows ==> !OnMember(a.dcs, s.lines.rows[l], s.groups.next)
    requires forall d :: s.dcs.next <= d <= s.dcs.next + n ==>
      d in a.dcs.rows && a.dcs.rows[d].group == s.groups.next
      && a.dcs.rows[d].kind == if d == s.dcs.next then Transit else Official
    ensures NewRows(s, a, p, ids, n, official)
  {
    TransitPlaced(s, p, ids, s.dcs.next);
  }

  /** a is s with a child group split off, seen piece by piece. */
  ghost predicate SplitPieces(s: Store, a: Store, p: SplitParams, t: Id, sh: Shipment, u: Table<Challan>, row: Group) {
    var ids := ParentLines(s, p.dc);
    && t in s.transfers.rows && s.transfers.rows[t].dc == p.dc
    && Selectable(s.dests, p.dests, t) && SplitAccounts.NoRepeats(p.dests) && (forall d :: d in p.dests ==> d in s.dests.rows)
    && SplitTables(s, a, u, p.dc, p.dests, t, row)
    && DistinctKeys(s.lines, ids) && PlansCover(s.lines, s.plans, ids, p.dests)
    && sh.consignments == SplitConsignments(s, Picked(s.lines, s.plans, ids, p.dests, |ids|), p.dests)
    && NewRows(s, a, p, ids, |sh.consignments|, OfficialLines(sh.consignments, s.dcs.next + 1, |sh.consignments|))
  }

  lemma ChildParts(s: Store, p: SplitParams)
    requires SplitCheck(s, p) == None
    ensures forall d :: d in p.dests ==> d in s.dests.rows
    ensures var picked := PickedLines(s, p);
      ChildShipment(s, p).items == SplitItems(s, p, picked)
      && ChildShipment(s, p).consignments == SplitConsignments(s, picked, p.dests)
  {
    CheckedDestinations(s, p);
  }

  lemma ChildRows(s: Store, p: SplitParams)
    requires SplitCheck(s, p) == None
    ensures var sh, a, x := ChildShipment(s, p), AfterSplit(s, p), s.dcs.next;
      && a.lines == s.lines.InsertAll(ItemLines(sh.items, x) + OfficialLines(sh.consignments, x + 1, |sh.consignments|))
      && a.serials == s.serials.InsertAll(SerialRows(sh.items, sh.project, s.lines.next, |sh.items|))
  {
    hide Table.InsertAll, ItemLines, OfficialLines, SerialRows, SplitCheck, ChildShipment, Mark;
  }

  lemma SplitOffLines(s: Store, dc: Id, ds: seq<Id>, t: Id, sh: Shipment)
    requires dc in s.dcs.rows && t in s.transfers.rows
    ensures SplitOff(s, dc, ds, t, sh).lines
            == s.lines.InsertAll(ItemLines(sh.items, s.dcs.next)
                                 + OfficialLines(sh.consignments, s.dcs.next + 1, |sh.consignments|))
  {
  }

  lemma SplitLines(s: Store, p: SplitParams, ids: seq<Id>)
    requires SplitCheck(s, p) == None && ids == ParentLines(s, p.dc)
    ensures forall d :: d in p.dests ==> d in s.dests.rows
    ensures var cs := ChildShipment(s, p).consignments;
      && cs == SplitConsignments(s, Picked(s.lines, s.plans, ids, p.dests, |ids|), p.dests)
      && AfterSplit(s, p).lines == s.lines.InsertAll(TransitRows(s, p, ids, |ids|, s.dcs.next)
                                                     + OfficialLines(cs, s.dcs.next + 1, |cs|))
  {
    ChildParts(s, p);
    SplitOffLines(s, p.dc, p.dests, Least(MetadataOf(s.transfers, p.dc)), ChildShipment(s, p));
  }

  lemma ParentIsCovered(s: Store, p: SplitParams, t: Id)
    requires PlansCarried(s) && t in s.transfers.rows && s.transfers.rows[t].dc == p.dc && Selectable(s.dests, p.dests, t)
    ensures DistinctKeys(s.lines, ParentLines(s, p.dc)) && PlansCover(s.lines, s.plans, ParentLines(s, p.dc), p.dests)
  {
    assert ParentLinesOk(s.lines, s.plans, p.dc, DestinationsOf(s.dests, t));
    ParentKeys(s.lines, s.plans, p.dc, DestinationsOf(s.dests, t));
    ParentCovers(s.lines, s.plans, p.dc, DestinationsOf(s.dests, t), p.dests);
  }

  lemma SplitIntoPieces(s: Store, p: SplitParams)
    requires Linked(s) && PlansCarried(s) && SplitCheck(s, p) == None && SplitAccounts.NoRepeats(p.dests)
    ensures var t := Least(MetadataOf(s.transfers, p.dc)); var sh := ChildShipment(s, p);
      SplitPieces(s, AfterSplit(s, p), p, t, sh, AddShipment(s, sh).dcs, Group(sh.project, sh.locations, Draft, t, s.splits.next))
  {
    var t, sh := Least(MetadataOf(s.transfers, p.dc)), ChildShipment(s, p);
    CheckedSplit(s, p);
    SplitOffTables(s, p.dc, p.dests, t, sh);
    ParentIsCovered(s, p, t);
    SplitLines(s, p, ParentLines(s, p.dc));
    PiecesFit(s, AfterSplit(s, p), p, t, sh, AddShipment(s, sh).dcs, Group(sh.project, sh.locations, Draft, t, s.splits.next),
              OfficialLines(sh.consignments, s.dcs.next + 1, |sh.consignments|));
  }

  lemma PiecesFit(s: Store, a: Store, p: SplitParams, t: Id, sh: Shipment, u: Table<Challan>, row: Group, official: seq<Line>)
    requires Tabled(s) && RowsLinked(s) && MembersLinked(s.dcs, s.groups) && p.dc in s.dcs.rows
    requires t in s.transfers.rows && s.transfers.rows[t].dc == p.dc && Selectable(s.dests, p.dests, t)
    requires SplitAccounts.NoRepeats(p.dests) && |sh.consignments| == |p.dests| && forall d :: d in p.dests ==> d in s.dests.rows
    requires SplitTables(s, a, u, p.dc, p.dests, t, row)
    requires DistinctKeys(s.lines, ParentLines(s, p.dc)) && PlansCover(s.lines, s.plans, ParentLines(s, p.dc), p.dests)
    requires var ids := ParentLines(s, p.dc);
      && sh.consignments == SplitConsignments(s, Picked(s.lines, s.plans, ids, p.dests, |ids|), p.dests)
      && a.lines == s.lines.InsertAll(TransitRows(s, p, ids, |ids|, s.dcs.next) + official)
    requires official == OfficialLines(sh.consignments, s.dcs.next + 1, |sh.consignments|)
    ensures SplitPieces(s, a, p, t, sh, u, row)
  {
    hide NewRows, SplitTables, DistinctKeys, PlansCover, OfficialLines, SplitConsignments, Picked, TransitRows, OnMember;
    OldLinesElsewhere(s, a, u, p.dc, p.dests, t, row);
    NewMembersPlaced(s, a, u, p.dc, p.dests, t, row);
    OfficialLinesAddressed(sh.consignments, s.dcs.next + 1, |sh.consignments|);
    PlacedRows(s, a, p, ParentLines(s, p.dc), |sh.consignments|, official);
  }

  lemma SplitKeepsBalance(s: Store, a: Store, p: SplitParams, t: Id, sh: Shipment, u: Table<Challan>, row: Group)
    requires Tabled(s) && RowsLinked(s) && MembersLinked(s.dcs, s.groups) && Balanced(s)
    requires SplitPieces(s, a, p, t, sh, u, row)
    ensures Balanced(a)
  {
    forall h | h in a.groups.rows
      ensures GroupBalances(a.dcs, a.lines, h)
    {
      if h == s.groups.next {
        NewGroupBalances(s, a, p, ParentLines(s, p.dc), sh.consignments);
      } else {
        SplitKeepsGroup(s, a, u, p.dc, p.dests, t, row, h);
        KeptBalance(s.dcs, a.dcs, s.lines, a.lines, h);
      }
    }
  }

  lemma NewChildCarries(s: Store, a: Store, p: SplitParams, t: Id, sh: Shipment, u: Table<Challan>, row: Group, l: Id)
    requires s.groups.Valid() && BlocksLinked(s.dests, s.groups) && SplitPieces(s, a, p, t, sh, u, row)
    requires l in LinesOf(s.lines, p.dc) && l in a.lines.rows && a.lines.rows[l] == s.lines.rows[l]
    ensures s.groups.next in a.groups.rows && ChildCarries(a, s.groups.next, l)
  {
    var ids := ParentLines(s, p.dc);
    var i :| 0 <= i < |ids| && ids[i] == l;
    NewGroupCarries(s, a, p, ids, |sh.consignments|, OfficialLines(sh.consignments, s.dcs.next + 1, |sh.consignments|), i);
    MarkedBlock(s.dests, s.groups, p.dests, t, s.groups.next);
  }

  lemma OldParentLine(s: Store, a: Store, u: Table<Challan>, dc: Id, ds: seq<Id>, t: Id, row: Group, r: Id, l: Id)
    requires Tabled(s) && MetadataLinked(s.dcs, s.transfers) && t in s.transfers.rows
    requires SplitTables(s, a, u, dc, ds, t, row)
    requires r in a.transfers.rows && l in a.lines.rows && a.lines.rows[l].dc == a.transfers.rows[r].dc
    ensures r in s.transfers.rows && a.transfers.rows[r].dc == s.transfers.rows[r].dc
    ensures l in s.lines.rows && a.lines.rows[l] == s.lines.rows[l]
  {
    assert s.transfers.rows[r].dc in s.dcs.rows;
  }

  lemma SplitKeepsChildren(s: Store, a: Store, p: SplitParams, t: Id, sh: Shipment, u: Table<Challan>, row: Group)
    requires Linked(s) && ChildrenCarry(s) && SplitPieces(s, a, p, t, sh, u, row)
    ensures ChildrenCarry(a)
  {
    forall h, l | h in a.groups.rows && l in a.lines.rows && a.groups.rows[h].transfer in a.transfers.rows
                  && a.lines.rows[l].dc == a.transfers.rows[a.groups.rows[h].transfer].dc
      ensures ChildCarries(a, h, l)
    {
      OldParentLine(s, a, u, p.dc, p.dests, t, row, a.groups.rows[h].transfer, l);
      if h == s.groups.next {
        NewChildCarries(s, a, p, t, sh, u, row, l);
      } else {
        assert ChildCarries(s, h, l);
        SplitKeepsChild(s, a, u, p.dc, p.dests, t, row, h, l);
      }
    }
  }

  lemma SplitKeepsAccounts(s: Store, p: SplitParams)
    requires Linked(s) && Accounted(s) && SplitCheck(s, p) == None && SplitAccounts.NoRepeats(p.dests)
    ensures Accounted(AfterSplit(s, p))
  {
    var t, sh, a := Least(MetadataOf(s.transfers, p.dc)), ChildShipment(s, p), AfterSplit(s, p);
    var u, row := AddShipment(s, sh).dcs, Group(sh.project, sh.locations, Draft, t, s.splits.next);
    SplitIntoPieces(s, p);
    SplitPiecesKeepAccounts(s, a, p, t, sh, u, row);
  }

  lemma SplitPiecesKeepAccounts(s: Store, a: Store, p: SplitParams, t: Id, sh: Shipment, u: Table<Challan>, row: Group)
    requires Linked(s) && Accounted(s) && SplitPieces(s, a, p, t, sh, u, row)
    ensures Accounted(a)
  {
    SplitKeepsParents(s, a, u, p.dc, p.dests, t, row);
    SplitKeepsChildren(s, a, p, t, sh, u, row);
    SplitKeepsBalance(s, a, p, t, sh, u, row);
  }
}
