/** Removing, undoing and issuing keep the accounts of every record that remains. */
module RemovalBalance {
  import opened Tables
  import opened Records
  import opened Shipments
  import opened Invariants
  import opened RemovalFacts
  import opened Accounts

  /** a has fewer lines and DCs than s; what goes belongs to group g, and transfer DCs only change status. */
  ghost predicate Thinned(s: Store, a: Store, g: Id) {
    && (forall d :: d in a.dcs.rows ==>
          && d in s.dcs.rows && s.dcs.rows[d].group != g
          && a.dcs.rows[d].group == s.dcs.rows[d].group && a.dcs.rows[d].kind == s.dcs.rows[d].kind)
    && (forall d :: d in s.dcs.rows && s.dcs.rows[d].group != g ==> d in a.dcs.rows)
    && (forall l :: l in a.lines.rows ==> l in s.lines.rows && a.lines.rows[l] == s.lines.rows[l])
    && (forall l :: l in s.lines.rows && !OnMember(s.dcs, s.lines.rows[l], g) ==> l in a.lines.rows)
    && a.plans == s.plans
    && a.groups == s.groups.Delete({g})
    && a.transfers.rows.Keys == s.transfers.rows.Keys
    && (forall t :: t in s.transfers.rows ==> a.transfers.rows[t].dc == s.transfers.rows[t].dc)
    && (forall t :: DestinationsOf(a.dests, t) == DestinationsOf(s.dests, t))
    && (forall t, h :: h in s.groups.rows && h != g && h != 0 ==> Block(a.dests, t, h) == Block(s.dests, t, h))
  }

  lemma ThinnedKeepsGroup(s: Store, a: Store, g: Id, h: Id)
    requires Thinned(s, a, g) && h != g
    ensures GroupKept(s.dcs, a.dcs, s.lines, a.lines, h)
  {
  }

  lemma ThinnedKeepsBalance(s: Store, a: Store, g: Id)
    requires Thinned(s, a, g) && Balanced(s)
    ensures Balanced(a)
  {
    forall h | h in a.groups.rows
      ensures GroupBalances(a.dcs, a.lines, h)
    {
      ThinnedKeepsGroup(s, a, g, h);
      KeptBalance(s.dcs, a.dcs, s.lines, a.lines, h);
    }
  }

  lemma ThinnedKeepsParent(s: Store, a: Store, g: Id, t: Id)
    requires Thinned(s, a, g) && MetadataLinked(s.dcs, s.transfers) && MembersLinked(s.dcs, s.groups) && g != 0
    requires t in s.transfers.rows
    ensures LinesKept(s.lines, a.lines, s.transfers.rows[t].dc)
  {
  }

  lemma ThinnedKeepsParents(s: Store, a: Store, g: Id)
    requires Thinned(s, a, g) && MetadataLinked(s.dcs, s.transfers) && MembersLinked(s.dcs, s.groups) && g != 0
    requires PlansCarried(s)
    ensures PlansCarried(a)
  {
    forall t | t in a.transfers.rows
      ensures ParentLinesOk(a.lines, a.plans, a.transfers.rows[t].dc, DestinationsOf(a.dests, t))
    {
      ThinnedKeepsParent(s, a, g, t);
      KeptParent(s.lines, a.lines, s.plans, a.plans, s.transfers.rows[t].dc, DestinationsOf(s.dests, t));
    }
  }

  lemma ThinnedKeepsChildren(s: Store, a: Store, g: Id)
    requires Thinned(s, a, g) && s.groups.Valid() && ChildrenCarry(s)
    ensures ChildrenCarry(a)
  {
    forall h, l | h in a.groups.rows && l in a.lines.rows && a.groups.rows[h].transfer in a.transfers.rows
                  && a.lines.rows[l].dc == a.transfers.rows[a.groups.rows[h].transfer].dc
      ensures ChildCarries(a, h, l)
    {
      assert ChildCarries(s, h, l);
      KeptChild(s, a, h, l);
    }
  }

  lemma ThinnedKeepsAccounts(s: Store, a: Store, g: Id)
    requires Thinned(s, a, g) && Linked(s) && g != 0 && Accounted(s)
    ensures Accounted(a)
  {
    ThinnedKeepsBalance(s, a, g);
    ThinnedKeepsParents(s, a, g);
    ThinnedKeepsChildren(s, a, g);
  }

  lemma RemovedIsThinned(s: Store, g: Id)
    requires RowsLinked(s)
    ensures Thinned(s, RemoveGroup(s, g), g)
  {
  }

  lemma UndoneIsThinned(s: Store, a: Store, split: Id)
    requires RowsLinked(s) && s.groups.Valid() && BlocksLinked(s.dests, s.groups)
    requires Undoable(s, split) && UndoTables(s, a, split)
    ensures Thinned(s, a, s.splits.rows[split].group)
  {
    var t, g := s.splits.rows[split].transfer, s.splits.rows[split].group;
    RemovedIsThinned(s, g);
    UnmarkedBlocks(s.dests, s.groups, t, g);
    UnmarkKeepsBlocks(s.dests, s.groups, t, g);
  }

  // ---- Issuing ----

  /** Only statuses change. */
  ghost predicate OnlyIssued(s: Store, a: Store) {
    && a.dcs.rows.Keys == s.dcs.rows.Keys
    && (forall d :: d in s.dcs.rows ==> a.dcs.rows[d].(status := s.dcs.rows[d].status) == s.dcs.rows[d])
    && a.groups.rows.Keys == s.groups.rows.Keys
    && (forall g :: g in s.groups.rows ==> a.groups.rows[g].(status := s.groups.rows[g].status) == s.groups.rows[g])
    && a == s.(dcs := a.dcs, groups := a.groups)
  }

  lemma IssuedKeepsAccounts(s: Store, a: Store)
    requires OnlyIssued(s, a) && Accounted(s)
    ensures Accounted(a)
  {
    forall h | h in a.groups.rows
      ensures GroupBalances(a.dcs, a.lines, h)
    {
      KeptBalance(s.dcs, a.dcs, s.lines, a.lines, h);
    }
    forall h, l | h in a.groups.rows && l in a.lines.rows && a.groups.rows[h].transfer in a.transfers.rows
                  && a.lines.rows[l].dc == a.transfers.rows[a.groups.rows[h].transfer].dc
      ensures ChildCarries(a, h, l)
    {
      assert ChildCarries(s, h, l);
      KeptChild(s, a, h, l);
    }
  }

  lemma IssuedKeepsNumbers(s: Store, a: Store)
    requires OnlyIssued(s, a) && Numbered(s.dcs, s.counters)
    ensures Numbered(a.dcs, a.counters)
  {
    forall d | d in a.dcs.rows
      ensures a.dcs.rows[d].number == s.dcs.rows[d].number
    {
      assert a.dcs.rows[d].(status := s.dcs.rows[d].status).number == s.dcs.rows[d].number;
    }
  }

  // ---- Deleting a draft transfer DC ----

  lemma TransferRemovalKeepsGroup(s: Store, a: Store, dc: Id, t: Id, h: Id)
    requires MembersLinked(s.dcs, s.groups) && s.groups.Valid() && TransferTables(s, a, dc, t)
    requires dc in s.dcs.rows && s.dcs.rows[dc].kind == Transfer && h in s.groups.rows
    ensures GroupKept(s.dcs, a.dcs, s.lines, a.lines, h)
  {
  }

  lemma TransferRemovalKeepsBalance(s: Store, a: Store, dc: Id, t: Id)
    requires MembersLinked(s.dcs, s.groups) && s.groups.Valid() && Balanced(s) && TransferTables(s, a, dc, t)
    requires dc in s.dcs.rows && s.dcs.rows[dc].kind == Transfer
    ensures Balanced(a)
  {
    forall h | h in a.groups.rows
      ensures GroupBalances(a.dcs, a.lines, h)
    {
      TransferRemovalKeepsGroup(s, a, dc, t, h);
      KeptBalance(s.dcs, a.dcs, s.lines, a.lines, h);
    }
  }

  lemma TransferRemovalKeepsParents(s: Store, a: Store, dc: Id, t: Id)
    requires MetadataLinked(s.dcs, s.transfers) && PlansCarried(s) && TransferTables(s, a, dc, t)
    ensures PlansCarried(a)
  {
    assert t in MetadataOf(s.transfers, dc);
    forall u | u in a.transfers.rows
      ensures ParentLinesOk(a.lines, a.plans, a.transfers.rows[u].dc, DestinationsOf(a.dests, u))
    {
      assert DestinationsOf(a.dests, u) == DestinationsOf(s.dests, u);
      KeptParent(s.lines, a.lines, s.plans, a.plans, s.transfers.rows[u].dc, DestinationsOf(s.dests, u));
    }
  }

  lemma TransferRemovalKeepsChildren(s: Store, a: Store, dc: Id, t: Id)
    requires MembersLinked(s.dcs, s.groups) && s.groups.Valid() && ChildrenCarry(s) && TransferTables(s, a, dc, t)
    requires dc in s.dcs.rows && s.dcs.rows[dc].kind == Transfer
    requires forall g :: g in s.groups.rows ==> s.groups.rows[g].transfer != t
    ensures ChildrenCarry(a)
  {
    forall h, l | h in a.groups.rows && l in a.lines.rows && a.groups.rows[h].transfer in a.transfers.rows
                  && a.lines.rows[l].dc == a.transfers.rows[a.groups.rows[h].transfer].dc
      ensures ChildCarries(a, h, l)
    {
      assert ChildCarries(s, h, l);
      assert Block(a.dests, a.groups.rows[h].transfer, h) == Block(s.dests, a.groups.rows[h].transfer, h);
      KeptChild(s, a, h, l);
    }
  }

  lemma TransferRemovalKeepsAccounts(s: Store, a: Store, dc: Id, t: Id)
    requires Linked(s) && Progress(s.dcs, s.transfers, s.dests) && Accounted(s) && TransferTables(s, a, dc, t)
    requires t in s.transfers.rows && dc == s.transfers.rows[t].dc && s.dcs.rows[dc].status == Draft
    ensures Accounted(a)
  {
    DraftHasNoSplits(s, t);
    TransferRemovalKeepsBalance(s, a, dc, t);
    TransferRemovalKeepsParents(s, a, dc, t);
    TransferRemovalKeepsChildren(s, a, dc, t);
  }
}
