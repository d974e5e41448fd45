/** Runs of the delivery-challan protocol: any sequence of calls, from the empty database. */
module Runs {
  import opened Tables
  import opened Numbering
  import opened Records
  import opened Shipments
  import opened CreationSpec
  import opened SplitSpec
  import opened IssueSpec
  import opened DeletionSpec
  import opened Invariants
  import opened ShipmentFacts
  import opened SplitFacts
  import opened RemovalFacts
  import opened CreationFacts
  import opened CreationAccounts
  import opened SplitAccounts
  import opened SplitBalance
  import opened RemovalBalance
  import opened CreationBalance

  datatype Action =
    | CreateDirect(direct: CreateParams)
    | CreateTransfer(transfer: CreateParams)
    | CreateSplit(split: SplitParams)
    | UndoSplit(splitId: Id)
    | IssueGroup(groupId: Id, tracking: TrackingTable)
    | IssueChallan(challanId: Id, tracking: TrackingTable)
    | DeleteGroup(project: Id, groupId: Id)
    | DeleteChallan(project: Id, challanId: Id)

  /** What the wizards submit; ids and everything else are unrestricted. */
  ghost predicate Submitted(a: Action) {
    match a
    case CreateDirect(p) => WellFormed(p)
    case CreateTransfer(p) => WellFormed(p)
    case CreateSplit(p) => CleanSplit(p)
    case _ => true
  }

  ghost predicate CleanSplit(p: SplitParams) {
    && SplitAccounts.NoRepeats(p.dests)
    && forall l, t :: l in p.allotted && t in p.allotted[l] ==> CleanText(t)
  }

  /** The handler checks the project of the group before anything else. */
  function GroupDeleteRequest(s: Store, project: Id, g: Id): Option<Error> {
    if g in s.groups.rows && s.groups.rows[g].project != project then Some(GroupNotFound)
    else GroupDeleteCheck(s, g)
  }

  /** One call; a rejected call changes nothing. */
  function Step(s: Store, a: Action): Store {
    match a
    case CreateDirect(p) => if DirectCheck(p) == None then AfterDirect(s, p) else s
    case CreateTransfer(p) => AfterTransfer(s, p)
    case CreateSplit(p) => if SplitCheck(s, p) == None then AfterSplit(s, p) else s
    case UndoSplit(x) => if UndoCheck(s, x) == None then AfterUndo(s, x) else s
    case IssueGroup(g, tracking) => if GroupIssueCheck(s, tracking, g) == None then AfterGroupIssue(s, g) else s
    case IssueChallan(d, tracking) => if SingleIssueCheck(s, tracking, d) == None then AfterSingleIssue(s, d) else s
    case DeleteGroup(project, g) => if GroupDeleteRequest(s, project, g) == None then RemoveGroup(s, g) else s
    case DeleteChallan(project, d) => if ChallanDeleteCheck(s, project, d) == None then AfterChallanDelete(s, d) else s
  }

  function Run(s: Store, actions: seq<Action>): Store {
    if actions == [] then s else Step(Run(s, actions[..|actions| - 1]), actions[|actions| - 1])
  }

  // ---- Every step keeps the invariant ----

  lemma SubsetNumbers(s: Store, a: Store)
    requires Numbered(s.dcs, s.counters) && a.counters == s.counters
    requires forall d :: d in a.dcs.rows ==> d in s.dcs.rows && a.dcs.rows[d].number == s.dcs.rows[d].number
    ensures Numbered(a.dcs, a.counters)
  {
  }

  lemma DirectKeepsInv(s: Store, p: CreateParams)
    requires Inv(s) && WellFormed(p)
    ensures Inv(AfterDirect(s, p))
  {
    var a, sh := AfterDirect(s, p), DirectShipment(p);
    AddedTables(s, sh);
    DirectKeepsLinks(s, a, |sh.consignments|, Group(p.project, |p.shipTos|, Draft, 0, 0));
    RemoveKeepsProgress(s.dcs, a.dcs, s.transfers, s.dests);
    DirectKeepsAccounts(s, p);
    DirectKeepsLabels(s, p);
  }

  lemma PricedSerialsClean(p: CreateParams)
    requires WellFormed(p)
    ensures forall i, t :: 0 <= i < |PricedItems(p.items, |p.items|)| && t in PricedItems(p.items, |p.items|)[i].serials ==> CleanText(t)
  {
    var items := PricedItems(p.items, |p.items|);
    PricedItemsExactly(p.items, |p.items|);
    forall i, t | 0 <= i < |items| && t in items[i].serials
      ensures CleanText(t)
    {
      var j := PricedItemSource(p.items, i);
      assert t in p.items[j].serials;
    }
  }

  lemma DirectKeepsLabels(s: Store, p: CreateParams)
    requires Tabled(s) && Numbered(s.dcs, s.counters) && CleanSerials(s.serials) && WellFormed(p)
    ensures Numbered(AfterDirect(s, p).dcs, AfterDirect(s, p).counters) && CleanSerials(AfterDirect(s, p).serials)
  {
    var sh := DirectShipment(p);
    AddedNumbers(s, sh);
    FreshNumbersKeep(s.dcs, AddShipment(s, sh).dcs, s.counters, AddShipment(s, sh).counters);
    PricedSerialsClean(p);
    AddedCleanSerials(s, sh);
  }

  lemma TransferKeepsLabels(s: Store, p: CreateParams)
    requires Tabled(s) && Numbered(s.dcs, s.counters) && CleanSerials(s.serials) && WellFormed(p)
    ensures Numbered(AfterTransfer(s, p).dcs, AfterTransfer(s, p).counters) && CleanSerials(AfterTransfer(s, p).serials)
  {
    var a, items := AfterTransfer(s, p), PricedItems(p.items, |p.items|);
    FreshNumbersKeep(s.dcs, a.dcs, s.counters, a.counters);
    PricedSerialsClean(p);
    InsertAllExtends(s.serials, SerialRows(items, p.project, s.lines.next, |items|));
    SerialRowsClean(items, p.project, s.lines.next, |items|);
  }

  lemma TransferKeepsInv(s: Store, p: CreateParams)
    requires Inv(s) && WellFormed(p)
    ensures Inv(AfterTransfer(s, p))
  {
    var a, n := AfterTransfer(s, p), |p.shipTos|;
    CreatedTransferTables(s, p);
    NewTransferKeepsLinks(s, a, n);
    NewTransferKeepsProgress(s, a, n);
    NewTransferKeepsAccounts(s, p);
    TransferKeepsLabels(s, p);
  }

  lemma SplitKeepsNumbers(s: Store, dc: Id, ds: seq<Id>, t: Id, sh: Shipment)
    requires s.dcs.Valid() && Numbered(s.dcs, s.counters) && Splittable(s, dc, ds, t, sh)
    ensures Numbered(SplitOff(s, dc, ds, t, sh).dcs, SplitOff(s, dc, ds, t, sh).counters)
  {
    var a := AddShipment(s, sh);
    AddedNumbers(s, sh);
    FreshNumbersKeep(s.dcs, a.dcs, s.counters, a.counters);
    SplitDcs(s, dc, ds, t, sh);
    SubsetNumbers(a, SplitOff(s, dc, ds, t, sh));
  }

  lemma SplitKeepsSerials(s: Store, p: SplitParams)
    requires Tabled(s) && CleanSerials(s.serials) && SplitCheck(s, p) == None && CleanSplit(p)
    ensures CleanSerials(AfterSplit(s, p).serials)
  {
    ChildParts(s, p);
    AddedCleanSerials(s, ChildShipment(s, p));
  }

  lemma SplitKeepsStructure(s: Store, p: SplitParams)
    requires Linked(s) && Progress(s.dcs, s.transfers, s.dests) && SplitCheck(s, p) == None
    ensures Linked(AfterSplit(s, p))
    ensures var a := AfterSplit(s, p); MetadataRows(a.dcs, a.transfers) && Progress(a.dcs, a.transfers, a.dests)
  {
    var t, sh := Least(MetadataOf(s.transfers, p.dc)), ChildShipment(s, p);
    CheckedSplit(s, p);
    SplitOffTables(s, p.dc, p.dests, t, sh);
    var row := Group(sh.project, sh.locations, Draft, t, s.splits.next);
    SplitKeepsLinks(s, AfterSplit(s, p), AddShipment(s, sh).dcs, p.dc, p.dests, t, row);
    SplitKeepsOnTrack(s, AfterSplit(s, p), AddShipment(s, sh).dcs, p.dc, p.dests, t, row);
  }

  lemma SplitKeepsInv(s: Store, p: SplitParams)
    requires Inv(s) && SplitCheck(s, p) == None && CleanSplit(p)
    ensures Inv(AfterSplit(s, p))
  {
    SplitKeepsStructure(s, p);
    SplitKeepsAccounts(s, p);
    CheckedSplit(s, p);
    SplitKeepsNumbers(s, p.dc, p.dests, Least(MetadataOf(s.transfers, p.dc)), ChildShipment(s, p));
    SplitKeepsSerials(s, p);
  }

  lemma UndoKeepsInv(s: Store, x: Id)
    requires Inv(s) && UndoCheck(s, x) == None
    ensures Inv(AfterUndo(s, x))
  {
    CheckedUndo(s, x);
    UndoneTables(s, x);
    UndoTablesKeepInv(s, AfterUndo(s, x), x);
  }

  lemma UndoTablesKeepInv(s: Store, a: Store, x: Id)
    requires Inv(s) && Undoable(s, x) && UndoTables(s, a, x)
    ensures Inv(a)
  {
    UndoKeepsLinks(s, a, x);
    UndoKeepsOnTrack(s, a, x);
    UndoneIsThinned(s, a, x);
    ThinnedKeepsAccounts(s, a, s.splits.rows[x].group);
    UndoKeepsLabels(s, a, x);
  }

  lemma UndoKeepsLabels(s: Store, a: Store, x: Id)
    requires Numbered(s.dcs, s.counters) && CleanSerials(s.serials) && Undoable(s, x) && UndoTables(s, a, x)
    ensures Numbered(a.dcs, a.counters) && CleanSerials(a.serials)
  {
    SubsetNumbers(s, a);
  }

  lemma RemoveKeepsInv(s: Store, g: Id)
    requires Inv(s) && g in s.groups.rows
    ensures Inv(RemoveGroup(s, g))
  {
    var a := RemoveGroup(s, g);
    RemoveKeepsLinks(s, g);
    RemoveKeepsProgress(s.dcs, a.dcs, s.transfers, s.dests);
    RemovedIsThinned(s, g);
    ThinnedKeepsAccounts(s, a, g);
    SubsetNumbers(s, a);
  }

  lemma RemoveTransferKeepsInv(s: Store, t: Id)
    requires Inv(s) && t in s.transfers.rows && s.dcs.rows[s.transfers.rows[t].dc].status == Draft
    ensures Inv(RemoveTransfer(s, s.transfers.rows[t].dc))
  {
    var dc := s.transfers.rows[t].dc;
    var a := RemoveTransfer(s, dc);
    RemovedTransferTables(s, t);
    TransferRemovalKeepsLinks(s, a, dc, t);
    TransferRemovalKeepsProgress(s, a, dc, t);
    TransferRemovalKeepsAccounts(s, a, dc, t);
    SubsetNumbers(s, a);
  }

  lemma GroupIssueKeepsInv(s: Store, g: Id)
    requires Inv(s) && g in s.groups.rows
    ensures Inv(AfterGroupIssue(s, g))
  {
    var a := AfterGroupIssue(s, g);
    GroupIssueKeepsLinks(s, g);
    GroupIssueOnly(s, g);
    RemoveKeepsProgress(s.dcs, a.dcs, s.transfers, s.dests);
    IssuedKeepsRest(s, a);
  }

  lemma GroupIssueOnly(s: Store, g: Id)
    requires MembersLinked(s.dcs, s.groups) && s.groups.Valid() && g in s.groups.rows
    ensures OnlyIssued(s, AfterGroupIssue(s, g))
    ensures forall d :: d in s.dcs.rows && s.dcs.rows[d].kind == Transfer ==>
      d in AfterGroupIssue(s, g).dcs.rows && AfterGroupIssue(s, g).dcs.rows[d].status == s.dcs.rows[d].status
  {
  }

  lemma TransferIssueOnly(s: Store, d: Id)
    requires d in s.dcs.rows
    ensures OnlyIssued(s, AfterTransferIssue(s, d))
  {
  }

  lemma IssuedKeepsRest(s: Store, a: Store)
    requires OnlyIssued(s, a) && Accounted(s) && Numbered(s.dcs, s.counters) && CleanSerials(s.serials)
    ensures Accounted(a) && Numbered(a.dcs, a.counters) && CleanSerials(a.serials)
  {
    IssuedKeepsAccounts(s, a);
    IssuedKeepsNumbers(s, a);
  }

  lemma TransferIssueKeepsInv(s: Store, d: Id)
    requires Inv(s) && d in s.dcs.rows && s.dcs.rows[d].kind == Transfer && s.dcs.rows[d].status == Draft
    ensures Inv(AfterTransferIssue(s, d))
  {
    var a := AfterTransferIssue(s, d);
    TransferIssueKeepsLinks(s, d);
    TransferIssueKeepsProgress(s, d);
    TransferIssueOnly(s, d);
    IssuedKeepsRest(s, a);
  }

  lemma ChallanDeleteKeepsInv(s: Store, d: Id)
    requires Inv(s) && d in s.dcs.rows && s.dcs.rows[d].status == Draft
    ensures Inv(AfterChallanDelete(s, d))
  {
    if s.dcs.rows[d].group != 0 {
      RemoveKeepsInv(s, s.dcs.rows[d].group);
    } else {
      var t :| t in MetadataOf(s.transfers, d);
      RemoveTransferKeepsInv(s, t);
    }
  }

  lemma SingleIssueKeepsInv(s: Store, d: Id)
    requires Inv(s) && d in s.dcs.rows && s.dcs.rows[d].status == Draft
    ensures Inv(AfterSingleIssue(s, d))
  {
    if s.dcs.rows[d].group != 0 {
      GroupIssueKeepsInv(s, s.dcs.rows[d].group);
    } else {
      TransferIssueKeepsInv(s, d);
    }
  }

  lemma StepKeepsInv(s: Store, a: Action)
    requires Inv(s) && Submitted(a)
    ensures Inv(Step(s, a))
  {
    match a
    case CreateDirect(p) => DirectKeepsInv(s, p);
    case CreateTransfer(p) => TransferKeepsInv(s, p);
    case CreateSplit(p) => if SplitCheck(s, p) == None { SplitKeepsInv(s, p); }
    case UndoSplit(x) => if UndoCheck(s, x) == None { UndoKeepsInv(s, x); }
    case IssueGroup(g, tracking) => if g in s.groups.rows { GroupIssueKeepsInv(s, g); }
    case IssueChallan(d, tracking) =>
      if SingleIssueCheck(s, tracking, d) == None { SingleIssueKeepsInv(s, d); }
    case DeleteGroup(_, g) => if g in s.groups.rows { RemoveKeepsInv(s, g); }
    case DeleteChallan(project, d) =>
      if ChallanDeleteCheck(s, project, d) == None { ChallanDeleteKeepsInv(s, d); }
  }

  lemma EmptyInv(starts: Starts)
    ensures Inv(Empty(starts))
  {
  }

  /** Every state of every run satisfies the invariant, direct deletions included. */
  lemma {:induction false} RunKeepsInv(s: Store, actions: seq<Action>)
    requires Inv(s) && forall a :: a in actions ==> Submitted(a)
    ensures Inv(Run(s, actions))
  {
    if actions != [] {
      var n := |actions| - 1;
      RunKeepsInv(s, actions[..n]);
      StepKeepsInv(Run(s, actions[..n]), actions[n]);
    }
  }
}
