/** Removing a group, undoing a split and deleting a draft transfer DC keep the links and the counts. */
module RemovalFacts {
  import opened Tables
  import opened Records
  import opened Shipments
  import opened SplitSpec
  import opened IssueSpec
  import opened DeletionSpec
  import opened Invariants
  import opened SplitFacts

  // ---- Removing a group and its members ----

  lemma RemoveKeepsChallanLinks(dcs: Table<Challan>, groups: Table<Group>, transfers: Table<TransferDc>, g: Id)
    requires MetadataLinked(dcs, transfers) && MembersLinked(dcs, groups) && GroupsShaped(dcs, groups) && g != 0
    ensures var u := dcs.Delete(Members(dcs, g)); var gs := groups.Delete({g});
      MetadataLinked(u, transfers) && MembersLinked(u, gs) && GroupsShaped(u, gs)
  {
    var u, gs := dcs.Delete(Members(dcs, g)), groups.Delete({g});
    forall h | h in gs.rows
      ensures TransitMembers(u, h) == TransitMembers(dcs, h)
    {
    }
  }

  lemma RemoveKeepsRows(s: Store, ds: set<Id>)
    requires Tabled(s) && RowsLinked(s)
    ensures Tabled(RemoveChallans(s, ds)) && RowsLinked(RemoveChallans(s, ds))
  {
  }

  lemma RemoveKeepsSplits(splits: Table<SplitRec>, groups: Table<Group>, transfers: Table<TransferDc>, g: Id)
    requires SplitsLinked(splits, groups, transfers)
    ensures SplitsLinked(splits.Delete(SplitsOf(splits, g)), groups.Delete({g}), transfers)
  {
  }

  lemma RemoveKeepsBlocks(dests: Table<Destination>, groups: Table<Group>, g: Id)
    requires BlocksLinked(dests, groups)
    ensures BlocksLinked(dests, groups.Delete({g}))
  {
  }

  lemma RemoveKeepsLinks(s: Store, g: Id)
    requires Linked(s) && g in s.groups.rows
    ensures Linked(RemoveGroup(s, g))
  {
    RemoveKeepsChallanLinks(s.dcs, s.groups, s.transfers, g);
    RemoveKeepsRows(s, Members(s.dcs, g));
    RemoveKeepsSplits(s.splits, s.groups, s.transfers, g);
    RemoveKeepsBlocks(s.dests, s.groups, g);
  }

  lemma RemoveKeepsProgress(dcs: Table<Challan>, dcs': Table<Challan>, transfers: Table<TransferDc>, dests: Table<Destination>)
    requires MetadataLinked(dcs, transfers) && Progress(dcs, transfers, dests)
    requires forall d :: d in dcs.rows && dcs.rows[d].kind == Transfer ==> d in dcs'.rows && dcs'.rows[d].status == dcs.rows[d].status
    ensures MetadataRows(dcs', transfers) && Progress(dcs', transfers, dests)
  {
    forall t | t in transfers.rows
      ensures OnTrack(dcs', transfers, dests, t)
    {
      assert OnTrack(dcs, transfers, dests, t);
    }
  }

  ghost predicate MetadataRows(dcs: Table<Challan>, transfers: Table<TransferDc>) {
    forall t :: t in transfers.rows ==> transfers.rows[t].dc in dcs.rows
  }

  // ---- Undoing a split ----

  lemma UnmarkedBlocks(dests: Table<Destination>, groups: Table<Group>, t: Id, g: Id)
    requires BlocksLinked(dests, groups) && g in groups.rows && g != 0 && groups.rows[g].transfer == t != 0
    ensures Blocks(Unmark(dests, t, g), t) == Blocks(dests, t) - {g}
    ensures g in Blocks(dests, t)
    ensures forall u :: u != t ==> Blocks(Unmark(dests, t, g), u) == Blocks(dests, u)
    ensures forall u :: DestinationsOf(Unmark(dests, t, g), u) == DestinationsOf(dests, u)
  {
    var after := Unmark(dests, t, g);
    var d :| d in Block(dests, t, g);
    assert d in DestinationsOf(dests, t) && dests.rows[d].splitGroup == g;
    forall u
      ensures DestinationsOf(after, u) == DestinationsOf(dests, u)
    {
    }
    forall u | u != t
      ensures Blocks(after, u) == Blocks(dests, u)
    {
      UnmarkElsewhere(dests, t, g, u);
    }
    UnmarkHere(dests, t, g);
  }

  lemma UnmarkElsewhere(dests: Table<Destination>, t: Id, g: Id, u: Id)
    requires u != t
    ensures Blocks(Unmark(dests, t, g), u) == Blocks(dests, u)
  {
    var after := Unmark(dests, t, g);
    assert DestinationsOf(after, u) == DestinationsOf(dests, u);
    assert forall d :: d in DestinationsOf(dests, u) ==> after.rows[d] == dests.rows[d];
  }

  lemma UnmarkHere(dests: Table<Destination>, t: Id, g: Id)
    ensures Blocks(Unmark(dests, t, g), t) == Blocks(dests, t) - {g}
  {
    var after := Unmark(dests, t, g);
    forall h | h in Blocks(dests, t) - {g}
      ensures h in Blocks(after, t)
    {
      var d :| d in DestinationsOf(dests, t) && dests.rows[d].isSplit && dests.rows[d].splitGroup == h;
      assert after.rows[d] == dests.rows[d] && d in DestinationsOf(after, t);
    }
  }

  lemma UnmarkKeepsBlocks(dests: Table<Destination>, groups: Table<Group>, t: Id, g: Id)
    requires BlocksLinked(dests, groups) && groups.Valid() && g in groups.rows && groups.rows[g].transfer == t
    ensures BlocksLinked(Unmark(dests, t, g), groups.Delete({g}))
    ensures forall u, h :: h != g && h != 0 ==> Block(Unmark(dests, t, g), u, h) == Block(dests, u, h)
  {
    var after := Unmark(dests, t, g);
    forall u, h | h != g && h != 0
      ensures Block(after, u, h) == Block(dests, u, h)
    {
    }
  }

  /** What the checks of UndoSplit establish about the split in a linked state. */
  ghost predicate Undoable(s: Store, split: Id) {
    && split in s.splits.rows
    && var t := s.splits.rows[split].transfer; var g := s.splits.rows[split].group;
    && t in s.transfers.rows && g in s.groups.rows && g != 0 && t != 0
    && s.groups.rows[g].transfer == t && s.groups.rows[g].status == Draft && s.groups.rows[g].split == split
    && s.transfers.rows[t].dc in s.dcs.rows
    && s.dcs.rows[s.transfers.rows[t].dc].kind == Transfer && s.dcs.rows[s.transfers.rows[t].dc].group == 0
    && SplitsOf(s.splits, g) == {split}
  }

  lemma CheckedUndo(s: Store, split: Id)
    requires Linked(s) && UndoCheck(s, split) == None
    ensures Undoable(s, split)
  {
  }

  /** The tables of an undone split. */
  ghost predicate UndoTables(s: Store, a: Store, split: Id)
    requires Undoable(s, split)
  {
    var t := s.splits.rows[split].transfer;
    var g := s.splits.rows[split].group;
    var meta := s.transfers.rows[t];
    var numSplit := if meta.numSplit > 0 then meta.numSplit - 1 else 0;
    var r := RemoveGroup(s, g);
    && Restatused(r.dcs, a.dcs, meta.dc)
    && a.dcs.rows[meta.dc].status == ProgressStatus(numSplit, meta.numDestinations)
    && a.lines == r.lines && a.serials == r.serials && a.plans == s.plans
    && a.transfers == s.transfers.Update(t, meta.(numSplit := numSplit))
    && a.dests == Unmark(s.dests, t, g)
    && a.splits == r.splits && a.groups == r.groups
    && a.counters == s.counters
  }

  lemma UndoneTables(s: Store, split: Id)
    requires Undoable(s, split) && UndoCheck(s, split) == None
    ensures UndoTables(s, AfterUndo(s, split), split)
  {
    var g := s.splits.rows[split].group;
    assert RemoveGroup(s, g).splits.Delete({split}).rows == RemoveGroup(s, g).splits.rows;
  }

  lemma UndoKeepsChallanLinks(s: Store, a: Store, split: Id)
    requires Linked(s) && Undoable(s, split) && UndoTables(s, a, split)
    ensures a.dcs.Valid() && MetadataLinked(a.dcs, a.transfers) && MembersLinked(a.dcs, a.groups) && GroupsShaped(a.dcs, a.groups)
  {
    var t, g := s.splits.rows[split].transfer, s.splits.rows[split].group;
    var r := RemoveGroup(s, g);
    RemoveKeepsChallanLinks(s.dcs, s.groups, s.transfers, g);
    RestatusKeeps(r.dcs, a.dcs, s.transfers.rows[t].dc, s.transfers, r.groups);
    RecountKeeps(a.dcs, s.transfers, t, a.transfers.rows[t]);
  }

  lemma UnmarkKeepsRows(dests: Table<Destination>, t: Id, g: Id)
    requires dests.Valid()
    ensures var m := Unmark(dests, t, g);
      m.Valid() && m.rows.Keys == dests.rows.Keys
      && forall d :: d in m.rows ==> m.rows[d].transfer == dests.rows[d].transfer
  {
  }

  lemma UndoKeepsRows(s: Store, a: Store, split: Id)
    requires Tabled(s) && RowsLinked(s) && Undoable(s, split) && UndoTables(s, a, split)
    ensures Tabled(a) && RowsLinked(a)
  {
    var t, g := s.splits.rows[split].transfer, s.splits.rows[split].group;
    RemoveKeepsRows(s, Members(s.dcs, g));
    UnmarkKeepsRows(s.dests, t, g);
  }

  lemma UndoKeepsGroups(s: Store, a: Store, split: Id)
    requires s.groups.Valid() && SplitsLinked(s.splits, s.groups, s.transfers) && BlocksLinked(s.dests, s.groups)
    requires Undoable(s, split) && UndoTables(s, a, split)
    ensures SplitsLinked(a.splits, a.groups, a.transfers) && BlocksLinked(a.dests, a.groups)
  {
    var t, g := s.splits.rows[split].transfer, s.splits.rows[split].group;
    RemoveKeepsSplits(s.splits, s.groups, s.transfers, g);
    UnmarkKeepsBlocks(s.dests, s.groups, t, g);
  }

  lemma UndoKeepsLinks(s: Store, a: Store, split: Id)
    requires Linked(s) && Undoable(s, split) && UndoTables(s, a, split)
    ensures Linked(a)
  {
    UndoKeepsChallanLinks(s, a, split);
    UndoKeepsRows(s, a, split);
    UndoKeepsGroups(s, a, split);
  }

  lemma UndoneOnTrack(s: Store, a: Store, split: Id, u: Id)
    requires MembersLinked(s.dcs, s.groups) && Undoable(s, split) && UndoTables(s, a, split)
    requires BlocksLinked(s.dests, s.groups)
    requires MetadataLinked(s.dcs, s.transfers) && u in s.transfers.rows && OnTrack(s.dcs, s.transfers, s.dests, u)
    ensures u in a.transfers.rows && a.transfers.rows[u].dc in a.dcs.rows && OnTrack(a.dcs, a.transfers, a.dests, u)
  {
    UnmarkedBlocks(s.dests, s.groups, s.splits.rows[split].transfer, s.splits.rows[split].group);
  }

  lemma UndoKeepsOnTrack(s: Store, a: Store, split: Id)
    requires MetadataLinked(s.dcs, s.transfers) && MembersLinked(s.dcs, s.groups) && BlocksLinked(s.dests, s.groups)
    requires Progress(s.dcs, s.transfers, s.dests)
    requires Undoable(s, split) && UndoTables(s, a, split)
    ensures MetadataRows(a.dcs, a.transfers) && Progress(a.dcs, a.transfers, a.dests)
  {
    forall u | u in a.transfers.rows
      ensures a.transfers.rows[u].dc in a.dcs.rows && OnTrack(a.dcs, a.transfers, a.dests, u)
    {
      UndoneOnTrack(s, a, split, u);
    }
  }

  // ---- Deleting a draft transfer DC ----

  /** A draft transfer DC has no split records and no child groups. */
  lemma DraftHasNoSplits(s: Store, t: Id)
    requires Linked(s) && Progress(s.dcs, s.transfers, s.dests)
    requires t in s.transfers.rows && s.dcs.rows[s.transfers.rows[t].dc].status == Draft
    ensures forall p :: p in s.splits.rows ==> s.splits.rows[p].transfer != t
    ensures forall g :: g in s.groups.rows ==> s.groups.rows[g].transfer != t
  {
    assert OnTrack(s.dcs, s.transfers, s.dests, t);
    forall g | g in s.groups.rows && s.groups.rows[g].transfer != 0
      ensures g in Blocks(s.dests, s.groups.rows[g].transfer)
    {
      var d :| d in Block(s.dests, s.groups.rows[g].transfer, g);
      assert d in DestinationsOf(s.dests, s.groups.rows[g].transfer) && s.dests.rows[d].splitGroup == g;
    }
    assert Blocks(s.dests, t) == {};
  }

  ghost predicate TransferTables(s: Store, a: Store, dc: Id, t: Id) {
    && MetadataOf(s.transfers, dc) == {t}
    && a.dcs == s.dcs.Delete({dc})
    && a.lines == s.lines.Delete(LinesOf(s.lines, dc))
    && a.serials == s.serials.Delete(SerialsOfAll(s.serials, LinesOf(s.lines, dc)))
    && a.transfers == s.transfers.Delete({t})
    && a.dests == s.dests.Delete(DestinationsOf(s.dests, t))
    && a.plans == s.plans.Delete(PlansOfAll(s.plans, DestinationsOf(s.dests, t)))
    && a.splits == s.splits && a.groups == s.groups && a.counters == s.counters
  }

  lemma RemovedTransferTables(s: Store, t: Id)
    requires MetadataLinked(s.dcs, s.transfers) && t in s.transfers.rows
    ensures TransferTables(s, RemoveTransfer(s, s.transfers.rows[t].dc), s.transfers.rows[t].dc, t)
  {
    var dc := s.transfers.rows[t].dc;
    MetadataFound(s.dcs, s.transfers, t);
    assert LinesOfAll(s.lines, {dc}) == LinesOf(s.lines, dc);
    assert DestinationsOfAll(s.dests, {t}) == DestinationsOf(s.dests, t);
  }

  lemma TransferRemovalKeepsRows(s: Store, a: Store, dc: Id, t: Id)
    requires Tabled(s) && RowsLinked(s) && TransferTables(s, a, dc, t)
    ensures Tabled(a) && RowsLinked(a)
  {
  }

  lemma TransferRemovalKeepsChallanLinks(s: Store, a: Store, dc: Id, t: Id)
    requires MetadataLinked(s.dcs, s.transfers) && MembersLinked(s.dcs, s.groups) && GroupsShaped(s.dcs, s.groups)
    requires TransferTables(s, a, dc, t) && dc in s.dcs.rows && s.dcs.rows[dc].kind == Transfer
    ensures MetadataLinked(a.dcs, a.transfers) && MembersLinked(a.dcs, a.groups) && GroupsShaped(a.dcs, a.groups)
  {
    forall g | g in s.groups.rows
      ensures TransitMembers(a.dcs, g) == TransitMembers(s.dcs, g)
    {
    }
    forall d | d != dc
      ensures MetadataOf(a.transfers, d) == MetadataOf(s.transfers, d)
    {
      assert s.transfers.rows.Keys == a.transfers.rows.Keys + ({t} * s.transfers.rows.Keys);
      assert t in MetadataOf(s.transfers, dc);
    }
  }

  lemma TransferRemovalKeepsGroups(s: Store, a: Store, dc: Id, t: Id)
    requires SplitsLinked(s.splits, s.groups, s.transfers) && BlocksLinked(s.dests, s.groups)
    requires TransferTables(s, a, dc, t)
    requires forall p :: p in s.splits.rows ==> s.splits.rows[p].transfer != t
    requires forall g :: g in s.groups.rows ==> s.groups.rows[g].transfer != t
    ensures SplitsLinked(a.splits, a.groups, a.transfers) && BlocksLinked(a.dests, a.groups)
  {
    forall g | g in a.groups.rows && a.groups.rows[g].transfer != 0
      ensures Block(a.dests, a.groups.rows[g].transfer, g) == Block(s.dests, s.groups.rows[g].transfer, g)
    {
    }
  }

  lemma TransferRemovalKeepsLinks(s: Store, a: Store, dc: Id, t: Id)
    requires Linked(s) && Progress(s.dcs, s.transfers, s.dests) && TransferTables(s, a, dc, t)
    requires t in s.transfers.rows && dc == s.transfers.rows[t].dc && s.dcs.rows[dc].status == Draft
    ensures Linked(a)
  {
    DraftHasNoSplits(s, t);
    TransferRemovalKeepsRows(s, a, dc, t);
    TransferRemovalKeepsChallanLinks(s, a, dc, t);
    TransferRemovalKeepsGroups(s, a, dc, t);
  }

  lemma TransferRemovalKeepsProgress(s: Store, a: Store, dc: Id, t: Id)
    requires MetadataLinked(s.dcs, s.transfers) && Progress(s.dcs, s.transfers, s.dests) && TransferTables(s, a, dc, t)
    ensures MetadataRows(a.dcs, a.transfers) && Progress(a.dcs, a.transfers, a.dests)
  {
    assert t in MetadataOf(s.transfers, dc);
    forall u | u in a.transfers.rows
      ensures OnTrack(a.dcs, a.transfers, a.dests, u)
    {
      assert OnTrack(s.dcs, s.transfers, s.dests, u);
      assert DestinationsOf(a.dests, u) == DestinationsOf(s.dests, u);
      assert Blocks(a.dests, u) == Blocks(s.dests, u);
    }
  }
}
