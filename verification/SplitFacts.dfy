/** Creating a split keeps the links and the progress counts. */
module SplitFacts {
  import opened Tables
  import opened Records
  import opened Shipments
  import opened SplitSpec
  import opened IssueSpec
  import opened Invariants
  import opened ShipmentFacts

  /** v is u with another status on transfer DC x. */
  ghost predicate Restatused(u: Table<Challan>, v: Table<Challan>, x: Id) {
    && x in u.rows && u.rows[x].kind == Transfer && u.rows[x].group == 0
    && x in v.rows && v == u.Update(x, u.rows[x].(status := v.rows[x].status))
  }

  lemma RestatusKeeps(u: Table<Challan>, v: Table<Challan>, x: Id, transfers: Table<TransferDc>, groups: Table<Group>)
    requires Restatused(u, v, x) && u.Valid()
    requires MetadataLinked(u, transfers) && MembersLinked(u, groups) && GroupsShaped(u, groups)
    ensures v.Valid() && MetadataLinked(v, transfers) && MembersLinked(v, groups) && GroupsShaped(v, groups)
    ensures forall g :: g in groups.rows && g != 0 ==> Members(v, g) == Members(u, g)
  {
    forall g | g in groups.rows
      ensures TransitMembers(v, g) == TransitMembers(u, g)
    {
    }
  }

  lemma RecountKeeps(dcs: Table<Challan>, transfers: Table<TransferDc>, t: Id, row: TransferDc)
    requires t in transfers.rows && row.dc == transfers.rows[t].dc
    requires MetadataLinked(dcs, transfers)
    ensures MetadataLinked(dcs, transfers.Update(t, row))
  {
    var after := transfers.Update(t, row);
    forall d
      ensures MetadataOf(after, d) == MetadataOf(transfers, d)
    {
    }
  }

  /** The metadata row found for a transfer DC is the one that names it. */
  lemma MetadataFound(dcs: Table<Challan>, transfers: Table<TransferDc>, t: Id)
    requires MetadataLinked(dcs, transfers) && t in transfers.rows
    ensures MetadataOf(transfers, transfers.rows[t].dc) == {t}
    ensures Least({t}) == t
  {
  }

  // ---- Marking destinations ----

  ghost predicate Selectable(dests: Table<Destination>, ds: seq<Id>, t: Id) {
    && ds != []
    && forall d :: d in ds ==> d in dests.rows && !dests.rows[d].isSplit && dests.rows[d].transfer == t
  }

  lemma MarkedBlocks(dests: Table<Destination>, groups: Table<Group>, ds: seq<Id>, t: Id, g: Id)
    requires Selectable(dests, ds, t) && BlocksLinked(dests, groups) && g == groups.next != 0
    ensures Blocks(Mark(dests, ds, g), t) == Blocks(dests, t) + {g}
    ensures g !in Blocks(dests, t)
    ensures forall u :: u != t ==> Blocks(Mark(dests, ds, g), u) == Blocks(dests, u)
    ensures forall u :: DestinationsOf(Mark(dests, ds, g), u) == DestinationsOf(dests, u)
  {
    var after := Mark(dests, ds, g);
    assert ds[0] in ds;
    forall d | d in dests.rows && d !in ds
      ensures after.rows[d] == dests.rows[d]
    {
    }
    assert Blocks(dests, t) <= Blocks(after, t) by {
      forall h | h in Blocks(dests, t)
        ensures h in Blocks(after, t)
      {
        var d :| d in DestinationsOf(dests, t) && dests.rows[d].isSplit && dests.rows[d].splitGroup == h;
        assert after.rows[d] == dests.rows[d];
        assert d in DestinationsOf(after, t);
      }
    }
    assert g in Blocks(after, t) by {
      assert after.rows[ds[0]].splitGroup == g && ds[0] in DestinationsOf(after, t);
    }
    forall u | u != t
      ensures Blocks(after, u) == Blocks(dests, u)
    {
      MarkElsewhere(dests, ds, t, g, u);
    }
  }

  lemma MarkElsewhere(dests: Table<Destination>, ds: seq<Id>, t: Id, g: Id, u: Id)
    requires Selectable(dests, ds, t) && u != t
    ensures Blocks(Mark(dests, ds, g), u) == Blocks(dests, u)
  {
    var after := Mark(dests, ds, g);
    assert DestinationsOf(after, u) == DestinationsOf(dests, u);
    assert forall d :: d in DestinationsOf(dests, u) ==> after.rows[d] == dests.rows[d];
  }

  lemma MarkedBlock(dests: Table<Destination>, groups: Table<Group>, ds: seq<Id>, t: Id, g: Id)
    requires Selectable(dests, ds, t) && BlocksLinked(dests, groups) && g == groups.next != 0
    ensures Block(Mark(dests, ds, g), t, g) == IdsIn(ds)
    ensures forall u, h :: h != g && h != 0 ==> Block(Mark(dests, ds, g), u, h) == Block(dests, u, h)
  {
  }

  lemma MarkKeepsBlocks(dests: Table<Destination>, groups: Table<Group>, ds: seq<Id>, t: Id, row: Group)
    requires Selectable(dests, ds, t) && BlocksLinked(dests, groups) && groups.Valid() && row.transfer == t
    ensures BlocksLinked(Mark(dests, ds, groups.next), groups.Insert(row))
  {
    var g, after := groups.next, Mark(dests, ds, groups.next);
    MarkedBlock(dests, groups, ds, t, g);
    assert ds[0] in ds && ds[0] in Block(after, t, g);
  }

  lemma SplitKeepsSplits(splits: Table<SplitRec>, groups: Table<Group>, transfers: Table<TransferDc>, row: Group, number: int)
    requires splits.Valid() && groups.Valid() && SplitsLinked(splits, groups, transfers)
    requires row.transfer in transfers.rows && row.split == splits.next
    ensures SplitsLinked(splits.Insert(SplitRec(row.transfer, groups.next, number)), groups.Insert(row), transfers)
  {
  }

  lemma SplitKeepsProgress(dcs: Table<Challan>, dcs': Table<Challan>, transfers: Table<TransferDc>,
                           dests: Table<Destination>, groups: Table<Group>, ds: seq<Id>, t: Id)
    requires MetadataLinked(dcs, transfers) && Progress(dcs, transfers, dests)
    requires Selectable(dests, ds, t) && BlocksLinked(dests, groups) && groups.next != 0 && t in transfers.rows
    requires forall u :: u in transfers.rows && u != t ==>
               transfers.rows[u].dc in dcs'.rows && dcs'.rows[transfers.rows[u].dc].status == dcs.rows[transfers.rows[u].dc].status
    requires transfers.rows[t].dc in dcs'.rows
    requires dcs'.rows[transfers.rows[t].dc].status == ProgressStatus(transfers.rows[t].numSplit + 1, transfers.rows[t].numDestinations)
    ensures Progress(dcs', transfers.Update(t, transfers.rows[t].(numSplit := transfers.rows[t].numSplit + 1)),
                     Mark(dests, ds, groups.next))
  {
    var g := groups.next;
    var after := Mark(dests, ds, g);
    var transfers' := transfers.Update(t, transfers.rows[t].(numSplit := transfers.rows[t].numSplit + 1));
    MarkedBlocks(dests, groups, ds, t, g);
    forall u | u in transfers'.rows
      ensures OnTrack(dcs', transfers', after, u)
    {
      assert OnTrack(dcs, transfers, dests, u);
    }
  }

  // ---- Putting it together ----

  /** What the checks of CreateSplit establish about its arguments. */
  ghost predicate Splittable(s: Store, dc: Id, ds: seq<Id>, t: Id, sh: Shipment) {
    && t in s.transfers.rows && s.transfers.rows[t].dc == dc
    && dc in s.dcs.rows && s.dcs.rows[dc].kind == Transfer && s.dcs.rows[dc].group == 0 && s.dcs.rows[dc].status != Draft
    && Selectable(s.dests, ds, t)
    && sh.transfer == t && sh.locations == |sh.consignments| == |ds|
  }

  lemma CheckedSplit(s: Store, p: SplitParams)
    requires Linked(s) && SplitCheck(s, p) == None
    ensures Splittable(s, p.dc, p.dests, Least(MetadataOf(s.transfers, p.dc)), ChildShipment(s, p))
  {
    CheckedDestinations(s, p);
  }

  lemma SplitDcs(s: Store, dc: Id, ds: seq<Id>, t: Id, sh: Shipment)
    requires s.dcs.Valid() && Splittable(s, dc, ds, t, sh)
    ensures ChallansAdded(s.dcs, AddShipment(s, sh).dcs, s.groups.next, |ds|)
    ensures Restatused(AddShipment(s, sh).dcs, SplitOff(s, dc, ds, t, sh).dcs, dc)
  {
    AddedChallans(s, sh);
  }

  /** a is s with the tables of a split: u stands for the DC table before the parent's status changed. */
  ghost predicate SplitTables(s: Store, a: Store, u: Table<Challan>, dc: Id, ds: seq<Id>, t: Id, row: Group)
    requires t in s.transfers.rows
  {
    var meta := s.transfers.rows[t];
    && ChallansAdded(s.dcs, u, s.groups.next, |ds|) && Restatused(u, a.dcs, dc)
    && a.dcs.rows[dc].status == ProgressStatus(meta.numSplit + 1, meta.numDestinations)
    && LinesWithin(s.lines, a.lines, s.dcs.next, s.dcs.next + |ds|)
    && SerialsWithin(s.serials, a.serials, a.lines)
    && a.transfers == s.transfers.Update(t, meta.(numSplit := meta.numSplit + 1))
    && a.dests == Mark(s.dests, ds, s.groups.next)
    && a.plans == s.plans
    && a.splits == s.splits.Insert(SplitRec(t, s.groups.next, meta.numSplit + 1))
    && a.groups == s.groups.Insert(row)
    && row.status == Draft && row.transfer == t && row.split == s.splits.next
  }

  lemma SplitOffTables(s: Store, dc: Id, ds: seq<Id>, t: Id, sh: Shipment)
    requires Tabled(s) && Splittable(s, dc, ds, t, sh)
    ensures SplitTables(s, SplitOff(s, dc, ds, t, sh), AddShipment(s, sh).dcs, dc, ds, t,
                        Group(sh.project, sh.locations, Draft, t, s.splits.next))
  {
    SplitDcs(s, dc, ds, t, sh);
    AddedLines(s, sh);
    AddedSerials(s, sh);
  }

  lemma SplitKeepsChallanLinks(s: Store, a: Store, u: Table<Challan>, dc: Id, ds: seq<Id>, t: Id, row: Group)
    requires Linked(s) && t in s.transfers.rows && s.transfers.rows[t].dc == dc && SplitTables(s, a, u, dc, ds, t, row)
    ensures MetadataLinked(a.dcs, a.transfers) && MembersLinked(a.dcs, a.groups) && GroupsShaped(a.dcs, a.groups)
  {
    AddKeepsMetadata(s.dcs, u, s.groups.next, |ds|, s.transfers);
    AddKeepsMembers(s.dcs, u, |ds|, s.groups, row);
    AddKeepsShape(s.dcs, u, |ds|, s.groups, row);
    RestatusKeeps(u, a.dcs, dc, s.transfers, a.groups);
    RecountKeeps(a.dcs, s.transfers, t, a.transfers.rows[t]);
  }

  lemma MarkKeepsRows(dests: Table<Destination>, ds: seq<Id>, g: Id)
    requires dests.Valid()
    ensures var m := Mark(dests, ds, g);
      m.Valid() && m.rows.Keys == dests.rows.Keys
      && forall d :: d in m.rows ==> m.rows[d].transfer == dests.rows[d].transfer
  {
  }

  lemma SplitKeepsTabled(s: Store, a: Store, u: Table<Challan>, dc: Id, ds: seq<Id>, t: Id, row: Group)
    requires Tabled(s) && t in s.transfers.rows && SplitTables(s, a, u, dc, ds, t, row)
    ensures Tabled(a)
  {
    MarkKeepsRows(s.dests, ds, s.groups.next);
  }

  lemma SplitKeepsRows(s: Store, a: Store, u: Table<Challan>, dc: Id, ds: seq<Id>, t: Id, row: Group)
    requires Tabled(s) && RowsLinked(s) && t in s.transfers.rows && SplitTables(s, a, u, dc, ds, t, row)
    ensures RowsLinked(a)
  {
    MarkKeepsRows(s.dests, ds, s.groups.next);
  }

  lemma SplitKeepsGroups(s: Store, a: Store, u: Table<Challan>, dc: Id, ds: seq<Id>, t: Id, row: Group)
    requires Tabled(s) && SplitsLinked(s.splits, s.groups, s.transfers) && BlocksLinked(s.dests, s.groups)
    requires Selectable(s.dests, ds, t) && t in s.transfers.rows && SplitTables(s, a, u, dc, ds, t, row)
    ensures SplitsLinked(a.splits, a.groups, a.transfers) && BlocksLinked(a.dests, a.groups)
  {
    MarkKeepsBlocks(s.dests, s.groups, ds, t, row);
    SplitKeepsSplits(s.splits, s.groups, s.transfers, row, s.transfers.rows[t].numSplit + 1);
  }

  lemma SplitKeepsLinks(s: Store, a: Store, u: Table<Challan>, dc: Id, ds: seq<Id>, t: Id, row: Group)
    requires Linked(s) && Selectable(s.dests, ds, t) && t in s.transfers.rows && s.transfers.rows[t].dc == dc
    requires SplitTables(s, a, u, dc, ds, t, row)
    ensures Linked(a)
  {
    SplitKeepsChallanLinks(s, a, u, dc, ds, t, row);
    SplitKeepsTabled(s, a, u, dc, ds, t, row);
    SplitKeepsRows(s, a, u, dc, ds, t, row);
    SplitKeepsGroups(s, a, u, dc, ds, t, row);
  }

  lemma SplitKeepsOnTrack(s: Store, a: Store, u: Table<Challan>, dc: Id, ds: seq<Id>, t: Id, row: Group)
    requires Linked(s) && Progress(s.dcs, s.transfers, s.dests)
    requires Selectable(s.dests, ds, t) && t in s.transfers.rows && s.transfers.rows[t].dc == dc
    requires SplitTables(s, a, u, dc, ds, t, row)
    ensures forall r :: r in a.transfers.rows ==> a.transfers.rows[r].dc in a.dcs.rows
    ensures Progress(a.dcs, a.transfers, a.dests)
  {
    SplitKeepsProgress(s.dcs, a.dcs, s.transfers, s.dests, s.groups, ds, t);
  }
}
