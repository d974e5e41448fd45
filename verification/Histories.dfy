/** What no run can take back: issued child groups, orphaned destinations, handed-out numbers. */
module Histories {
  import opened Tables
  import opened Numbering
  import opened Records
  import opened Shipments
  import opened CreationSpec
  import opened SplitSpec
  import opened IssueSpec
  import opened DeletionSpec
  import opened Invariants
  import opened SplitFacts
  import opened RemovalFacts
  import opened CreationFacts
  import opened CreationAccounts
  import opened RemovalBalance
  import opened Runs
  import opened Partition
  import DocNumbers

  // ---- Runs that take child groups back only by undoing their split ----

  predicate IsChild(s: Store, g: Id) {
    g in s.groups.rows && s.groups.rows[g].transfer != 0
  }

  /** The call deletes a child group directly, and is accepted. */
  predicate TakesChild(s: Store, a: Action) {
    match a
    case DeleteGroup(project, g) => IsChild(s, g) && GroupDeleteRequest(s, project, g) == None
    case DeleteChallan(project, d) => ChallanDeleteCheck(s, project, d) == None && IsChild(s, s.dcs.rows[d].group)
    case _ => false
  }

  /** No call of the run takes a child group away by deleting it directly. */
  ghost predicate Orderly(s: Store, actions: seq<Action>) {
    actions == [] ||
    var n := |actions| - 1;
    Orderly(s, actions[..n]) && !TakesChild(Run(s, actions[..n]), actions[n])
  }

  lemma SplitLeavesNoneDangling(s: Store, a: Store, u: Table<Challan>, dc: Id, ds: seq<Id>, t: Id, row: Group)
    requires NoneDangling(s) && t in s.transfers.rows && SplitTables(s, a, u, dc, ds, t, row)
    ensures NoneDangling(a)
  {
  }

  lemma UndoLeavesNoneDangling(s: Store, a: Store, x: Id)
    requires NoneDangling(s) && BlocksLinked(s.dests, s.groups) && Undoable(s, x) && UndoTables(s, a, x)
    ensures NoneDangling(a)
  {
    forall d | d in a.dests.rows && a.dests.rows[d].isSplit
      ensures a.dests.rows[d].splitGroup in a.groups.rows
    {
      var g := s.splits.rows[x].group;
      assert a.dests.rows[d] == s.dests.rows[d] && s.dests.rows[d].splitGroup != g;
    }
  }

  /** A group can go without leaving flags behind exactly when it belongs to no transfer. */
  lemma RemoveLeavesNoneDangling(s: Store, g: Id)
    requires NoneDangling(s) && RowsLinked(s) && s.transfers.Valid() && BlocksLinked(s.dests, s.groups)
    requires s.groups.Valid() && g in s.groups.rows
    ensures NoneDangling(RemoveGroup(s, g)) <==> s.groups.rows[g].transfer == 0
  {
    if s.groups.rows[g].transfer != 0 {
      var d :| d in Block(s.dests, s.groups.rows[g].transfer, g);
      assert s.dests.rows[d].isSplit;
    }
  }

  lemma CreateSplitLeavesNoneDangling(s: Store, p: SplitParams)
    requires Linked(s) && NoneDangling(s) && SplitCheck(s, p) == None
    ensures NoneDangling(AfterSplit(s, p))
  {
    var t, sh := Least(MetadataOf(s.transfers, p.dc)), ChildShipment(s, p);
    CheckedSplit(s, p);
    SplitOffTables(s, p.dc, p.dests, t, sh);
    SplitLeavesNoneDangling(s, AfterSplit(s, p), AddShipment(s, sh).dcs, p.dc, p.dests, t,
                            Group(sh.project, sh.locations, Draft, t, s.splits.next));
  }

  lemma TransferLeavesNoneDangling(s: Store, a: Store, n: nat)
    requires NoneDangling(s) && NewTransferTables(s, a, n)
    ensures NoneDangling(a)
  {
  }

  lemma DirectLeavesNoneDangling(s: Store, sh: Shipment)
    requires NoneDangling(s)
    ensures NoneDangling(AddShipment(s, sh))
  {
  }

  lemma ChallanDeleteLeavesNoneDangling(s: Store, d: Id)
    requires Linked(s) && NoneDangling(s) && d in s.dcs.rows
    ensures NoneDangling(AfterChallanDelete(s, d)) <==> !IsChild(s, s.dcs.rows[d].group)
  {
    if s.dcs.rows[d].group != 0 {
      RemoveLeavesNoneDangling(s, s.dcs.rows[d].group);
    }
  }

  lemma IssueLeavesNoneDangling(s: Store, a: Store)
    requires NoneDangling(s) && OnlyIssued(s, a)
    ensures NoneDangling(a)
  {
  }

  lemma SingleIssueOnly(s: Store, d: Id)
    requires Linked(s) && d in s.dcs.rows
    ensures OnlyIssued(s, AfterSingleIssue(s, d))
  {
    if s.dcs.rows[d].group != 0 {
      GroupIssueOnly(s, s.dcs.rows[d].group);
    } else {
      TransferIssueOnly(s, d);
    }
  }

  /** Whether a call orphans a destination can be told before it is made. */
  lemma StepLeavesNoneDangling(s: Store, a: Action)
    requires Linked(s) && NoneDangling(s) && Submitted(a)
    ensures NoneDangling(Step(s, a)) <==> !TakesChild(s, a)
  {
    hide NoneDangling, OnlyIssued, UndoTables, NewTransferTables, AfterGroupIssue, AfterSingleIssue, AfterUndo, AfterSplit, RemoveGroup;
    match a
    case CreateDirect(p) => DirectLeavesNoneDangling(s, DirectShipment(p));
    case CreateTransfer(p) =>
      CreatedTransferTables(s, p);
      TransferLeavesNoneDangling(s, AfterTransfer(s, p), |p.shipTos|);
    case CreateSplit(p) => if SplitCheck(s, p) == None { CreateSplitLeavesNoneDangling(s, p); }
    case UndoSplit(x) => if UndoCheck(s, x) == None {
      CheckedUndo(s, x);
      UndoneTables(s, x);
      UndoLeavesNoneDangling(s, AfterUndo(s, x), x);
    }
    case IssueGroup(g, tracking) => if g in s.groups.rows {
      GroupIssueOnly(s, g);
      IssueLeavesNoneDangling(s, AfterGroupIssue(s, g));
    }
    case IssueChallan(d, tracking) => if d in s.dcs.rows {
      SingleIssueOnly(s, d);
      IssueLeavesNoneDangling(s, AfterSingleIssue(s, d));
    }
    case DeleteGroup(_, g) => if g in s.groups.rows { RemoveLeavesNoneDangling(s, g); }
    case DeleteChallan(_, d) => if d in s.dcs.rows { ChallanDeleteLeavesNoneDangling(s, d); }
  }

  // A concrete run: two destinations are planned, issued and split into one child group,
  // and the group is deleted directly.

  function PairPlan(): CreateParams {
    CreateParams(1, CalendarDate(2025, 4), [7, 8], [])
  }

  function PairTransfer(starts: Starts): Store {
    Step(Empty(starts), CreateTransfer(PairPlan()))
  }

  function PairIssued(starts: Starts): Store {
    Step(PairTransfer(starts), IssueChallan(1, map[]))
  }

  function PairSplit(starts: Starts): Store {
    Step(PairIssued(starts), CreateSplit(SplitParams(1, [1, 2], map[])))
  }

  function PairDeleted(starts: Starts): Store {
    Step(PairSplit(starts), DeleteGroup(1, 1))
  }

  ghost predicate PairTables(s: Store, status: Status) {
    && s.dcs.rows.Keys == {1} && s.dcs.rows[1].project == 1 && s.dcs.rows[1].kind == Transfer
    && s.dcs.rows[1].status == status && s.dcs.rows[1].group == 0
    && s.lines.rows == map[] && s.serials.rows == map[] && s.plans.rows == map[]
    && s.transfers.rows == map[1 := TransferDc(1, 2, 0)]
    && s.dests.rows == map[1 := Destination(1, 7, false, 0), 2 := Destination(1, 8, false, 0)]
    && s.splits == Table(map[], 1) && s.groups == Table(map[], 1)
  }

  lemma PairRows()
    ensures var p := PairPlan();
      && PricedItems(p.items, |p.items|) == []
      && DestinationRows(p.shipTos, 1, |p.shipTos|) == [Destination(1, 7, false, 0), Destination(1, 8, false, 0)]
      && PlanRows(p, 1, |p.shipTos|) == []
  {
    var p := PairPlan();
    assert DestinationRows(p.shipTos, 1, 0) == [];
    assert DestinationRows(p.shipTos, 1, 1) == [Destination(1, 7, false, 0)];
    assert ColumnPlans(p.items, 1, 0, 0) == ColumnPlans(p.items, 2, 1, 0) == [];
    assert PlanRows(p, 1, 0) == PlanRows(p, 1, 1) == [];
  }

  lemma PairTransferTables(starts: Starts)
    ensures PairTables(PairTransfer(starts), Draft)
  {
    PairRows();
    Inserted(Empty(starts).dests, DestinationRows(PairPlan().shipTos, 1, 2));
    var s := AfterTransfer(Empty(starts), PairPlan());
    assert s.dests.rows == map[1 := Destination(1, 7, false, 0), 2 := Destination(1, 8, false, 0)];
    assert s.plans.rows == map[] && s.lines.rows == map[] && s.serials.rows == map[];
    assert s.transfers.rows == map[1 := TransferDc(1, 2, 0)];
  }

  lemma PairIssuedTables(s: Store)
    requires PairTables(s, Draft)
    ensures PairTables(Step(s, IssueChallan(1, map[])), Issued)
  {
    assert LinesOf(s.lines, 1) == {};
    assert Ascending(LinesOf(s.lines, 1)) == [];
    assert LineProblems(s, map[], OtherTexts(s, 1, 1), Ascending(LinesOf(s.lines, 1))) == [];
    assert SerialCheck(s, map[], 1, 1) == None;
  }

  /** Both destinations of transfer 1 are flagged for group 1. */
  ghost predicate PairFlagged(s: Store, status: Status) {
    && 1 in s.dcs.rows && s.dcs.rows[1].status == status
    && s.transfers.rows == map[1 := TransferDc(1, 2, 1)]
    && s.dests.rows == map[1 := Destination(1, 7, true, 1), 2 := Destination(1, 8, true, 1)]
  }

  lemma PairSplitAccepted(s: Store, p: SplitParams)
    requires PairTables(s, Issued) && p == SplitParams(1, [1, 2], map[])
    ensures SplitCheck(s, p) == None && Least(MetadataOf(s.transfers, 1)) == 1
  {
    assert MetadataOf(s.transfers, 1) == {1};
    assert FirstProblem(s.dests, 1, p.dests, 0) == FirstProblem(s.dests, 1, p.dests, 1) == None;
  }

  lemma PairSplitTables(s: Store, a: Store, u: Table<Challan>, row: Group)
    requires PairTables(s, Issued) && SplitTables(s, a, u, 1, [1, 2], 1, row)
    ensures PairFlagged(a, Splitting) && a.groups.rows == map[1 := row] && 1 !in Members(a.dcs, 1)
  {
    assert a.transfers.rows == map[1 := TransferDc(1, 2, 1)];
    assert a.dests.rows == map[1 := Destination(1, 7, true, 1), 2 := Destination(1, 8, true, 1)];
    assert a.groups.rows == map[1 := row];
  }

  lemma PairSplittable(s: Store, p: SplitParams)
    requires Linked(s) && PairTables(s, Issued) && p == SplitParams(1, [1, 2], map[])
    ensures SplitCheck(s, p) == None && Least(MetadataOf(s.transfers, 1)) == 1
    ensures Splittable(s, 1, p.dests, 1, ChildShipment(s, p)) && ChildShipment(s, p).project == 1
  {
    PairSplitAccepted(s, p);
    CheckedSplit(s, p);
  }

  lemma PairAfterSplit(s: Store, p: SplitParams)
    requires Linked(s) && PairTables(s, Issued) && p == SplitParams(1, [1, 2], map[]) && SplitCheck(s, p) == None
    ensures var a := AfterSplit(s, p);
      && PairFlagged(a, Splitting) && a.groups.rows.Keys == {1} && 1 !in Members(a.dcs, 1)
      && a.groups.rows[1].status == Draft && a.groups.rows[1].project == 1
  {
    hide PairFlagged, Splittable, Members;
    PairSplittable(s, p);
    var sh := ChildShipment(s, p);
    SplitOffTables(s, 1, p.dests, 1, sh);
    PairSplitTables(s, AfterSplit(s, p), AddShipment(s, sh).dcs, Group(sh.project, sh.locations, Draft, 1, 1));
  }

  lemma PairSplitResult(s: Store)
    requires Linked(s) && PairTables(s, Issued)
    ensures var a := Step(s, CreateSplit(SplitParams(1, [1, 2], map[])));
      && PairFlagged(a, Splitting) && a.groups.rows.Keys == {1} && 1 !in Members(a.dcs, 1)
      && a.groups.rows[1].status == Draft && a.groups.rows[1].project == 1
  {
    var p := SplitParams(1, [1, 2], map[]);
    PairSplitAccepted(s, p);
    PairAfterSplit(s, p);
  }

  lemma PairSound(starts: Starts)
    ensures Linked(PairIssued(starts))
  {
    EmptyInv(starts);
    StepKeepsInv(Empty(starts), CreateTransfer(PairPlan()));
    StepKeepsInv(PairTransfer(starts), IssueChallan(1, map[]));
  }

  lemma PairSplitFlags(starts: Starts)
    ensures var s := PairSplit(starts);
      && PairFlagged(s, Splitting) && s.groups.rows.Keys == {1} && 1 !in Members(s.dcs, 1)
      && s.groups.rows[1].status == Draft && s.groups.rows[1].project == 1
  {
    PairTransferTables(starts);
    PairIssuedTables(PairTransfer(starts));
    PairSound(starts);
    PairSplitResult(PairIssued(starts));
  }

  /** Every destination is split, yet the status reads "splitting"; and after the direct deletion
      num_split counts a group that is gone. */
  lemma PairRun(starts: Starts)
    ensures var s := PairSplit(starts);
      s.dcs.rows.Keys >= {1} && s.dcs.rows[1].status == Splitting && UnsplitDestinations(s, 1) == {}
    ensures var s := PairDeleted(starts);
      s.groups.rows == map[] && 1 in s.transfers.rows && s.transfers.rows[1].numSplit == 1
      && OrphanedDestinations(s, 1) == {1, 2}
  {
    PairSplitFlags(starts);
    PairDelete(PairSplit(starts));
  }

  lemma PairDelete(s: Store)
    requires PairFlagged(s, Splitting) && s.groups.rows.Keys == {1}
    requires s.groups.rows[1].status == Draft && s.groups.rows[1].project == 1 && 1 !in Members(s.dcs, 1)
    ensures var a := Step(s, DeleteGroup(1, 1));
      a.groups.rows == map[] && PairFlagged(a, Splitting) && OrphanedDestinations(a, 1) == {1, 2}
  {
  }

  // ---- Settled destinations ----

  /** Split for a group that is issued, or gone. */
  ghost predicate Settled(s: Store, d: Id) {
    && d in s.dests.rows && s.dests.rows[d].isSplit
    && (s.dests.rows[d].splitGroup in s.groups.rows ==> s.groups.rows[s.dests.rows[d].splitGroup].status == Issued)
  }

  ghost predicate StaysSettled(s: Store, a: Store, d: Id) {
    && Settled(a, d) && d in s.dests.rows && a.dests.rows[d] == s.dests.rows[d]
    && (s.dests.rows[d].splitGroup in a.groups.rows <==> s.dests.rows[d].splitGroup in s.groups.rows)
  }

  lemma SplitKeepsSettled(s: Store, a: Store, u: Table<Challan>, dc: Id, ds: seq<Id>, t: Id, row: Group, d: Id)
    requires Settled(s, d) && BlocksLinked(s.dests, s.groups) && Selectable(s.dests, ds, t)
    requires t in s.transfers.rows && SplitTables(s, a, u, dc, ds, t, row)
    ensures StaysSettled(s, a, d)
  {
  }

  lemma UndoKeepsSettled(s: Store, a: Store, x: Id, d: Id)
    requires Settled(s, d) && BlocksLinked(s.dests, s.groups) && Undoable(s, x) && UndoTables(s, a, x)
    ensures StaysSettled(s, a, d)
  {
  }

  lemma CreateSplitKeepsSettled(s: Store, p: SplitParams, d: Id)
    requires Linked(s) && SplitCheck(s, p) == None && Settled(s, d)
    ensures StaysSettled(s, AfterSplit(s, p), d)
  {
    var t, sh := Least(MetadataOf(s.transfers, p.dc)), ChildShipment(s, p);
    CheckedSplit(s, p);
    SplitOffTables(s, p.dc, p.dests, t, sh);
    SplitKeepsSettled(s, AfterSplit(s, p), AddShipment(s, sh).dcs, p.dc, p.dests, t,
                      Group(sh.project, sh.locations, Draft, t, s.splits.next), d);
  }

  lemma TransferKeepsSettled(s: Store, a: Store, n: nat, d: Id)
    requires NewTransferTables(s, a, n) && Settled(s, d)
    ensures StaysSettled(s, a, d)
  {
  }

  lemma DirectKeepsSettled(s: Store, sh: Shipment, d: Id)
    requires BlocksLinked(s.dests, s.groups) && Settled(s, d)
    ensures StaysSettled(s, AddShipment(s, sh), d)
  {
  }

  lemma IssueKeepsSettled(s: Store, a: Store, d: Id)
    requires OnlyIssued(s, a) && Settled(s, d)
    requires forall g :: g in s.groups.rows && s.groups.rows[g].status == Issued ==> a.groups.rows[g].status == Issued
    ensures StaysSettled(s, a, d)
  {
  }

  lemma RemoveKeepsSettled(s: Store, g: Id, d: Id)
    requires Settled(s, d) && g in s.groups.rows && s.groups.rows[g].status == Draft
    ensures StaysSettled(s, RemoveGroup(s, g), d)
  {
  }

  /** A transfer with a split destination is past "issued". */
  lemma SettledParent(s: Store, d: Id)
    requires RowsLinked(s) && MetadataLinked(s.dcs, s.transfers) && Progress(s.dcs, s.transfers, s.dests)
    requires d in s.dests.rows && s.dests.rows[d].isSplit
    ensures var status := s.dcs.rows[s.transfers.rows[s.dests.rows[d].transfer].dc].status;
      status == Splitting || status == Split
  {
    var t := s.dests.rows[d].transfer;
    assert OnTrack(s.dcs, s.transfers, s.dests, t);
    assert d in DestinationsOf(s.dests, t);
    assert s.dests.rows[d].splitGroup in Blocks(s.dests, t);
  }

  lemma ChallanDeleteKeepsSettled(s: Store, d: Id, x: Id)
    requires Linked(s) && Progress(s.dcs, s.transfers, s.dests) && Settled(s, x)
    requires d in s.dcs.rows && s.dcs.rows[d].status == Draft
    ensures StaysSettled(s, AfterChallanDelete(s, d), x)
  {
    if s.dcs.rows[d].group != 0 {
      RemoveKeepsSettled(s, s.dcs.rows[d].group, x);
    } else {
      var t :| t in MetadataOf(s.transfers, d);
      RemovedTransferTables(s, t);
      SettledParent(s, x);
      assert s.dests.rows[x].transfer != t;
    }
  }

  lemma UndoSplitKeepsSettled(s: Store, x: Id, d: Id)
    requires Linked(s) && UndoCheck(s, x) == None && Settled(s, d)
    ensures StaysSettled(s, AfterUndo(s, x), d)
  {
    CheckedUndo(s, x);
    UndoneTables(s, x);
    UndoKeepsSettled(s, AfterUndo(s, x), x, d);
  }

  lemma GroupIssueKeepsSettled(s: Store, g: Id, d: Id)
    requires Linked(s) && g in s.groups.rows && Settled(s, d)
    ensures StaysSettled(s, AfterGroupIssue(s, g), d)
  {
    GroupIssueOnly(s, g);
    IssueKeepsSettled(s, AfterGroupIssue(s, g), d);
  }

  lemma SingleIssueKeepsSettled(s: Store, c: Id, d: Id)
    requires Linked(s) && c in s.dcs.rows && Settled(s, d)
    ensures StaysSettled(s, AfterSingleIssue(s, c), d)
  {
    if s.dcs.rows[c].group != 0 {
      GroupIssueKeepsSettled(s, s.dcs.rows[c].group, d);
    } else {
      TransferIssueOnly(s, c);
      IssueKeepsSettled(s, AfterTransferIssue(s, c), d);
    }
  }

  lemma NewTransferKeepsSettled(s: Store, p: CreateParams, d: Id)
    requires Tabled(s) && WellFormed(p) && Settled(s, d)
    ensures StaysSettled(s, AfterTransfer(s, p), d)
  {
    CreatedTransferTables(s, p);
    TransferKeepsSettled(s, AfterTransfer(s, p), |p.shipTos|, d);
  }

  lemma UntouchedKeepsSettled(s: Store, d: Id)
    requires Settled(s, d)
    ensures StaysSettled(s, s, d)
  {
  }

  // A step, once its accepted case is known.

  lemma SplitStep(s: Store, p: SplitParams, b: Store, d: Id)
    requires Settled(s, d) && b == Step(s, CreateSplit(p))
    requires SplitCheck(s, p) == None ==> StaysSettled(s, AfterSplit(s, p), d)
    ensures StaysSettled(s, b, d)
  {
    UntouchedKeepsSettled(s, d);
  }

  lemma UndoStep(s: Store, x: Id, b: Store, d: Id)
    requires Settled(s, d) && b == Step(s, UndoSplit(x))
    requires UndoCheck(s, x) == None ==> StaysSettled(s, AfterUndo(s, x), d)
    ensures StaysSettled(s, b, d)
  {
    UntouchedKeepsSettled(s, d);
  }

  lemma IssueGroupStep(s: Store, g: Id, tracking: TrackingTable, b: Store, d: Id)
    requires Settled(s, d) && b == Step(s, IssueGroup(g, tracking))
    requires g in s.groups.rows ==> StaysSettled(s, AfterGroupIssue(s, g), d)
    ensures StaysSettled(s, b, d)
  {
    UntouchedKeepsSettled(s, d);
  }

  lemma IssueChallanStep(s: Store, c: Id, tracking: TrackingTable, b: Store, d: Id)
    requires Settled(s, d) && b == Step(s, IssueChallan(c, tracking))
    requires c in s.dcs.rows && (s.dcs.rows[c].group != 0 ==> s.dcs.rows[c].group in s.groups.rows) ==>
               StaysSettled(s, AfterSingleIssue(s, c), d)
    ensures StaysSettled(s, b, d)
  {
    UntouchedKeepsSettled(s, d);
  }

  lemma DeleteGroupStep(s: Store, project: Id, g: Id, b: Store, d: Id)
    requires Settled(s, d) && b == Step(s, DeleteGroup(project, g))
    ensures StaysSettled(s, b, d)
  {
    UntouchedKeepsSettled(s, d);
    if GroupDeleteRequest(s, project, g) == None {
      RemoveKeepsSettled(s, g, d);
    }
  }

  lemma DeleteChallanStep(s: Store, project: Id, c: Id, b: Store, d: Id)
    requires Settled(s, d) && b == Step(s, DeleteChallan(project, c))
    requires ChallanDeleteCheck(s, project, c) == None ==> StaysSettled(s, AfterChallanDelete(s, c), d)
    ensures StaysSettled(s, b, d)
  {
    UntouchedKeepsSettled(s, d);
  }

  lemma StepKeepsSettled(s: Store, a: Action, b: Store, d: Id)
    requires Linked(s) && Progress(s.dcs, s.transfers, s.dests) && Submitted(a) && Settled(s, d) && b == Step(s, a)
    ensures StaysSettled(s, b, d)
  {
    match a
    case CreateDirect(p) => DirectKeepsSettled(s, DirectShipment(p), d); UntouchedKeepsSettled(s, d);
    case CreateTransfer(p) => NewTransferKeepsSettled(s, p, d);
    case CreateSplit(p) =>
      if SplitCheck(s, p) == None { CreateSplitKeepsSettled(s, p, d); }
      SplitStep(s, p, b, d);
    case UndoSplit(x) =>
      if UndoCheck(s, x) == None { UndoSplitKeepsSettled(s, x, d); }
      UndoStep(s, x, b, d);
    case IssueGroup(g, tracking) =>
      if g in s.groups.rows { GroupIssueKeepsSettled(s, g, d); }
      IssueGroupStep(s, g, tracking, b, d);
    case IssueChallan(c, tracking) =>
      if c in s.dcs.rows { SingleIssueKeepsSettled(s, c, d); }
      IssueChallanStep(s, c, tracking, b, d);
    case DeleteGroup(project, g) => DeleteGroupStep(s, project, g, b, d);
    case DeleteChallan(project, c) =>
      if ChallanDeleteCheck(s, project, c) == None { ChallanDeleteKeepsSettled(s, c, d); }
      DeleteChallanStep(s, project, c, b, d);
  }

  /** From the moment a child group is issued (or deleted directly), the destinations it took keep their
      flags through every later call, and their transfer DC never again reads "draft" or "issued". */
  lemma {:induction false} SettledForEver(s: Store, actions: seq<Action>, d: Id)
    requires Inv(s) && Settled(s, d) && forall a :: a in actions ==> Submitted(a)
    ensures var r := Run(s, actions);
      && StaysSettled(s, r, d)
      && Inv(r)
      && var t := s.dests.rows[d].transfer;
         t in r.transfers.rows && r.transfers.rows[t].dc in r.dcs.rows
         && r.dcs.rows[r.transfers.rows[t].dc].status in {Splitting, Split}
  {
    RunKeepsInv(s, actions);
    if actions != [] {
      var n := |actions| - 1;
      SettledForEver(s, actions[..n], d);
      StepKeepsSettled(Run(s, actions[..n]), actions[n], Run(s, actions), d);
    }
    SettledParent(Run(s, actions), d);
  }

  /** An orphan is never taken back. */
  lemma StepKeepsDangling(s: Store, a: Action)
    requires Inv(s) && !NoneDangling(s) && Submitted(a)
    ensures !NoneDangling(Step(s, a))
  {
    var d :| d in s.dests.rows && s.dests.rows[d].isSplit && s.dests.rows[d].splitGroup !in s.groups.rows;
    StepKeepsSettled(s, a, Step(s, a), d);
  }

  /** A run leaves no destination pointing at a missing group exactly when no call in it is an accepted
      direct deletion of a child group. */
  lemma {:induction false} OrderlyExactly(s: Store, actions: seq<Action>)
    requires Inv(s) && NoneDangling(s) && forall a :: a in actions ==> Submitted(a)
    ensures NoneDangling(Run(s, actions)) <==> Orderly(s, actions)
  {
    if actions != [] {
      var n := |actions| - 1;
      OrderlyExactly(s, actions[..n]);
      RunKeepsInv(s, actions[..n]);
      if Orderly(s, actions[..n]) {
        StepLeavesNoneDangling(Run(s, actions[..n]), actions[n]);
      } else {
        StepKeepsDangling(Run(s, actions[..n]), actions[n]);
      }
    }
  }

  /** A destination orphaned by a direct deletion can never be split again, nor be freed. */
  lemma OrphanedForEver(s: Store, actions: seq<Action>, t: Id, d: Id, p: SplitParams)
    requires Inv(s) && d in OrphanedDestinations(s, t) && forall a :: a in actions ==> Submitted(a)
    ensures d in OrphanedDestinations(Run(s, actions), t)
    ensures d in p.dests ==> SplitCheck(Run(s, actions), p) != None
  {
    SettledForEver(s, actions, d);
    if d in p.dests && SplitCheck(Run(s, actions), p) == None {
      CheckedDestinations(Run(s, actions), p);
    }
  }

  lemma ChildStaysSettled(s: Store, actions: seq<Action>, g: Id, d: Id)
    requires Inv(s) && IsChild(s, g) && s.groups.rows[g].status == Issued && forall a :: a in actions ==> Submitted(a)
    requires d in Block(s.dests, s.groups.rows[g].transfer, g)
    ensures var r, t := Run(s, actions), s.groups.rows[g].transfer;
      && d in r.dests.rows && r.dests.rows[d] == s.dests.rows[d] && r.dests.rows[d].isSplit
      && g in r.groups.rows && r.groups.rows[g].status == Issued
      && t in r.transfers.rows && r.transfers.rows[t].dc in r.dcs.rows
      && r.dcs.rows[r.transfers.rows[t].dc].status in {Splitting, Split}
  {
    SettledForEver(s, actions, d);
  }

  lemma BlockStaysSettled(s: Store, actions: seq<Action>, g: Id)
    requires Inv(s) && IsChild(s, g) && s.groups.rows[g].status == Issued && forall a :: a in actions ==> Submitted(a)
    ensures var r, t := Run(s, actions), s.groups.rows[g].transfer;
      Block(s.dests, t, g) <= Block(r.dests, t, g) * SplitDestinations(r, t)
  {
    var r, t := Run(s, actions), s.groups.rows[g].transfer;
    forall d | d in Block(s.dests, t, g)
      ensures d in Block(r.dests, t, g) && d in SplitDestinations(r, t)
    {
      ChildStaysSettled(s, actions, g, d);
    }
  }

  /** An issued child group stays, stays issued, keeps its destinations split,
      and keeps its transfer DC from ever reading "draft" or "issued" again. */
  lemma IssuedChildForEver(s: Store, actions: seq<Action>, g: Id)
    requires Inv(s) && IsChild(s, g) && s.groups.rows[g].status == Issued && forall a :: a in actions ==> Submitted(a)
    ensures var r, t := Run(s, actions), s.groups.rows[g].transfer;
      && g in r.groups.rows && r.groups.rows[g].status == Issued
      && Block(s.dests, t, g) <= Block(r.dests, t, g) * SplitDestinations(r, t)
      && t in r.transfers.rows && r.transfers.rows[t].dc in r.dcs.rows
      && r.dcs.rows[r.transfers.rows[t].dc].status in {Splitting, Split}
  {
    var r, t := Run(s, actions), s.groups.rows[g].transfer;
    var d :| d in Block(s.dests, t, g);
    ChildStaysSettled(s, actions, g, d);
    BlockStaysSettled(s, actions, g);
  }

  // ---- Handed-out numbers ----

  /** The last number handed out under key; one less than the first if none was. */
  function LastNumber(counters: Counters, starts: Starts, key: SeqKey): (n: nat)
    ensures n + 1 == NextNumber(counters, starts, key)
  {
    if key in counters then counters[key] else StartOf(starts, key) - 1
  }

  ghost predicate IsNew(s: Store, a: Store, d: Id) {
    d in a.dcs.rows && d !in s.dcs.rows
  }

  ghost predicate GivenOut(s: Store, a: Store, no: DocNo) {
    exists d :: IsNew(s, a, d) && a.dcs.rows[d].number == no
  }

  /** Between s and a, the new DCs took exactly the numbers the counters moved past, each once. */
  ghost predicate DrawsExactly(s: Store, a: Store) {
    && a.starts == s.starts
    && (forall key :: LastNumber(s.counters, s.starts, key) <= LastNumber(a.counters, s.starts, key))
    && (forall d :: IsNew(s, a, d) ==>
          var no := a.dcs.rows[d].number;
          LastNumber(s.counters, s.starts, no.key) < no.num <= LastNumber(a.counters, s.starts, no.key))
    && (forall d, e :: IsNew(s, a, d) && IsNew(s, a, e) && a.dcs.rows[d].number == a.dcs.rows[e].number ==> d == e)
    && (forall key, n: nat :: LastNumber(s.counters, s.starts, key) < n <= LastNumber(a.counters, s.starts, key) ==>
          GivenOut(s, a, DocNo(key, n)))
  }

  ghost predicate Listed(rows: seq<Challan>, no: DocNo) {
    exists i :: 0 <= i < |rows| && rows[i].number == no
  }

  /** dcs' is dcs with rows at its next ids. */
  ghost predicate Placed(dcs: Table<Challan>, dcs': Table<Challan>, rows: seq<Challan>) {
    && (forall d :: d in dcs'.rows && d !in dcs.rows ==> dcs.next <= d < dcs.next + |rows| && dcs'.rows[d] == rows[d - dcs.next])
    && (forall d :: dcs.next <= d < dcs.next + |rows| ==> d in dcs'.rows && d !in dcs.rows)
  }

  lemma InsertedIsPlaced(dcs: Table<Challan>, rows: seq<Challan>)
    requires dcs.Valid()
    ensures Placed(dcs, dcs.InsertAll(rows), rows)
  {
    Inserted(dcs, rows);
  }

  lemma ListedIsGivenOut(s: Store, a: Store, rows: seq<Challan>, no: DocNo)
    requires Placed(s.dcs, a.dcs, rows) && Listed(rows, no)
    ensures GivenOut(s, a, no)
  {
    var i :| 0 <= i < |rows| && rows[i].number == no;
    assert IsNew(s, a, s.dcs.next + i);
  }

  lemma PlacedDraws(s: Store, a: Store, rows: seq<Challan>)
    requires Placed(s.dcs, a.dcs, rows) && a.starts == s.starts
    requires forall key :: LastNumber(s.counters, s.starts, key) <= LastNumber(a.counters, s.starts, key)
    requires forall i :: 0 <= i < |rows| ==>
      var no := rows[i].number;
      LastNumber(s.counters, s.starts, no.key) < no.num <= LastNumber(a.counters, s.starts, no.key)
    requires forall i, j :: 0 <= i < j < |rows| ==> rows[i].number != rows[j].number
    requires forall key, n: nat :: LastNumber(s.counters, s.starts, key) < n <= LastNumber(a.counters, s.starts, key) ==>
      Listed(rows, DocNo(key, n))
    ensures DrawsExactly(s, a)
  {
    hide LastNumber, Listed, GivenOut;
    forall key, n: nat | LastNumber(s.counters, s.starts, key) < n <= LastNumber(a.counters, s.starts, key)
      ensures GivenOut(s, a, DocNo(key, n))
    {
      assert Listed(rows, DocNo(key, n));
      ListedIsGivenOut(s, a, rows, DocNo(key, n));
    }
  }

  lemma InsertedDraws(s: Store, a: Store, rows: seq<Challan>)
    requires s.dcs.Valid() && a.starts == s.starts && a.dcs == s.dcs.InsertAll(rows)
    requires forall key :: LastNumber(s.counters, s.starts, key) <= LastNumber(a.counters, s.starts, key)
    requires forall i :: 0 <= i < |rows| ==>
      var no := rows[i].number;
      LastNumber(s.counters, s.starts, no.key) < no.num <= LastNumber(a.counters, s.starts, no.key)
    requires forall i, j :: 0 <= i < j < |rows| ==> rows[i].number != rows[j].number
    requires forall key, n: nat :: LastNumber(s.counters, s.starts, key) < n <= LastNumber(a.counters, s.starts, key) ==>
      Listed(rows, DocNo(key, n))
    ensures DrawsExactly(s, a)
  {
    hide DrawsExactly, LastNumber, Listed, Placed;
    InsertedIsPlaced(s.dcs, rows);
    PlacedDraws(s, a, rows);
  }

  /** Row 0 takes the next transit number, the rows after it the next official numbers. */
  lemma ShipmentNumbers(s: Store, sh: Shipment)
    ensures var rows, n := ShipmentChallans(s, sh), |sh.consignments|;
      var tkey, okey := TransitKey(sh.project, sh.date), OfficialKey(sh.project, sh.date);
      var first := NextNumber(s.counters, s.starts, okey);
      && |rows| == n + 1 && rows[0].number == DocNo(tkey, NextNumber(s.counters, s.starts, tkey))
      && (forall i :: 0 < i <= n ==> rows[i].number == DocNo(okey, first + (i - 1)))
      && LastNumber(AddShipment(s, sh).counters, s.starts, okey) == first + n - 1
      && LastNumber(AddShipment(s, sh).counters, s.starts, tkey) == NextNumber(s.counters, s.starts, tkey)
      && forall key :: key != tkey && key != okey ==>
           LastNumber(AddShipment(s, sh).counters, s.starts, key) == LastNumber(s.counters, s.starts, key)
  {
    assert TransitKey(sh.project, sh.date) != OfficialKey(sh.project, sh.date);
  }

  lemma ShipmentDraws(s: Store, sh: Shipment)
    requires s.dcs.Valid()
    ensures DrawsExactly(s, AddShipment(s, sh))
  {
    var a, rows := AddShipment(s, sh), ShipmentChallans(s, sh);
    ShipmentNumbers(s, sh);
    ShipmentListed(s, a.counters, rows, TransitKey(sh.project, sh.date), OfficialKey(sh.project, sh.date), |sh.consignments|);
    InsertedDraws(s, a, rows);
  }

  lemma ShipmentListed(s: Store, counters: Counters, rows: seq<Challan>, tkey: SeqKey, okey: SeqKey, n: nat)
    requires |rows| == n + 1 && tkey != okey
    requires rows[0].number == DocNo(tkey, NextNumber(s.counters, s.starts, tkey))
    requires forall i :: 0 < i <= n ==> rows[i].number == DocNo(okey, NextNumber(s.counters, s.starts, okey) + (i - 1))
    requires LastNumber(counters, s.starts, okey) == NextNumber(s.counters, s.starts, okey) + n - 1
    requires LastNumber(counters, s.starts, tkey) == NextNumber(s.counters, s.starts, tkey)
    requires forall key :: key != tkey && key != okey ==> LastNumber(counters, s.starts, key) == LastNumber(s.counters, s.starts, key)
    ensures forall key, k: nat :: LastNumber(s.counters, s.starts, key) < k <= LastNumber(counters, s.starts, key) ==>
      Listed(rows, DocNo(key, k))
  {
    forall key, k: nat | LastNumber(s.counters, s.starts, key) < k <= LastNumber(counters, s.starts, key)
      ensures Listed(rows, DocNo(key, k))
    {
      if key == okey {
        assert rows[k - NextNumber(s.counters, s.starts, okey) + 1].number == DocNo(key, k);
      } else {
        assert rows[0].number == DocNo(key, k);
      }
    }
  }

  lemma OneDraws(s: Store, a: Store, row: Challan)
    requires s.dcs.Valid() && a.starts == s.starts && a.dcs == s.dcs.Insert(row)
    requires row.number.num == NextNumber(s.counters, s.starts, row.number.key)
    requires a.counters == Advance(s.counters, s.starts, row.number.key, 1)
    ensures DrawsExactly(s, a)
  {
    InsertAllNone(s.dcs);
    InsertAllOne(s.dcs, [], row);
    assert [] + [row] == [row];
    InsertedDraws(s, a, [row]);
  }

  lemma TransferDraws(s: Store, p: CreateParams)
    requires s.dcs.Valid()
    ensures DrawsExactly(s, AfterTransfer(s, p))
  {
    OneDraws(s, AfterTransfer(s, p), TransferChallan(s, p));
  }

  lemma SplitDraws(s: Store, p: SplitParams)
    requires Linked(s) && SplitCheck(s, p) == None
    ensures DrawsExactly(s, AfterSplit(s, p))
  {
    var t, sh := Least(MetadataOf(s.transfers, p.dc)), ChildShipment(s, p);
    CheckedSplit(s, p);
    ShipmentDraws(s, sh);
    SplitDcs(s, p.dc, p.dests, t, sh);
    RestatusedDraws(s, AddShipment(s, sh), AfterSplit(s, p), p.dc);
  }

  lemma RestatusedDraws(s: Store, a: Store, b: Store, dc: Id)
    requires DrawsExactly(s, a) && Restatused(a.dcs, b.dcs, dc) && b.counters == a.counters && b.starts == a.starts
    ensures DrawsExactly(s, b)
  {
    forall d
      ensures IsNew(s, a, d) <==> IsNew(s, b, d)
      ensures IsNew(s, a, d) ==> b.dcs.rows[d].number == a.dcs.rows[d].number
    {
    }
    forall no | GivenOut(s, a, no)
      ensures GivenOut(s, b, no)
    {
      var d :| IsNew(s, a, d) && a.dcs.rows[d].number == no;
      assert IsNew(s, b, d);
    }
  }

  /** Neither does anything else draw a number. */
  lemma NothingDrawn(s: Store, a: Store)
    requires a.counters == s.counters && a.starts == s.starts && a.dcs.rows.Keys <= s.dcs.rows.Keys
    ensures DrawsExactly(s, a)
  {
  }

  lemma UndoDrawsNothing(s: Store, x: Id)
    requires Linked(s) && UndoCheck(s, x) == None
    ensures DrawsExactly(s, AfterUndo(s, x))
  {
    CheckedUndo(s, x);
    UndoneTables(s, x);
    NothingDrawn(s, AfterUndo(s, x));
  }

  lemma CreateStepDraws(s: Store, a: Action, b: Store)
    requires s.dcs.Valid() && b == Step(s, a) && (a.CreateDirect? || a.CreateTransfer?)
    ensures DrawsExactly(s, b)
  {
    match a
    case CreateDirect(p) => if DirectCheck(p) == None { ShipmentDraws(s, DirectShipment(p)); } else { NothingDrawn(s, b); }
    case CreateTransfer(p) => TransferDraws(s, p);
  }

  lemma IssueStepDrawsNothing(s: Store, a: Action, b: Store)
    requires MembersLinked(s.dcs, s.groups) && b == Step(s, a) && (a.IssueGroup? || a.IssueChallan?)
    ensures DrawsExactly(s, b)
  {
    assert b.counters == s.counters && b.starts == s.starts && b.dcs.rows.Keys == s.dcs.rows.Keys;
    NothingDrawn(s, b);
  }

  lemma DeleteStepDrawsNothing(s: Store, a: Action, b: Store)
    requires b == Step(s, a) && (a.DeleteGroup? || a.DeleteChallan?)
    ensures DrawsExactly(s, b)
  {
    assert b.counters == s.counters && b.starts == s.starts && b.dcs.rows.Keys <= s.dcs.rows.Keys;
    NothingDrawn(s, b);
  }

  lemma StepDraws(s: Store, a: Action, b: Store)
    requires Linked(s) && b == Step(s, a)
    ensures DrawsExactly(s, b)
  {
    match a
    case CreateDirect(_) | CreateTransfer(_) => CreateStepDraws(s, a, b);
    case CreateSplit(p) => if SplitCheck(s, p) == None { SplitDraws(s, p); } else { NothingDrawn(s, b); }
    case UndoSplit(x) => if UndoCheck(s, x) == None { UndoDrawsNothing(s, x); } else { NothingDrawn(s, b); }
    case IssueGroup(_, _) | IssueChallan(_, _) => IssueStepDrawsNothing(s, a, b);
    case DeleteGroup(_, _) | DeleteChallan(_, _) => DeleteStepDrawsNothing(s, a, b);
  }

  /** DC d comes into being with the call at position i. */
  ghost predicate CreatedAt(s: Store, actions: seq<Action>, i: nat, d: Id)
    requires i < |actions|
  {
    IsNew(Run(s, actions[..i]), Run(s, actions[..i + 1]), d)
  }

  ghost function NumberGiven(s: Store, actions: seq<Action>, i: nat, d: Id): DocNo
    requires i < |actions| && CreatedAt(s, actions, i, d)
  {
    Run(s, actions[..i + 1]).dcs.rows[d].number
  }

  lemma PrefixStep(s: Store, actions: seq<Action>, i: nat)
    requires Inv(s) && i < |actions| && forall a :: a in actions ==> Submitted(a)
    ensures Run(s, actions[..i + 1]) == Step(Run(s, actions[..i]), actions[i])
    ensures DrawsExactly(Run(s, actions[..i]), Run(s, actions[..i + 1]))
  {
    assert actions[..i + 1][..i] == actions[..i];
    RunKeepsInv(s, actions[..i]);
    StepDraws(Run(s, actions[..i]), actions[i], Run(s, actions[..i + 1]));
  }

  lemma {:induction false} StartsKept(s: Store, actions: seq<Action>)
    requires Inv(s) && forall a :: a in actions ==> Submitted(a)
    ensures Run(s, actions).starts == s.starts
  {
    if actions != [] {
      var n := |actions| - 1;
      StartsKept(s, actions[..n]);
      assert actions[..n + 1] == actions;
      PrefixStep(s, actions, n);
    }
  }

  lemma CounterGrows(s: Store, actions: seq<Action>, i: nat, key: SeqKey)
    requires Inv(s) && i < |actions| && forall a :: a in actions ==> Submitted(a)
    ensures LastNumber(Run(s, actions[..i]).counters, s.starts, key) <= LastNumber(Run(s, actions[..i + 1]).counters, s.starts, key)
  {
    PrefixStep(s, actions, i);
    StartsKept(s, actions[..i]);
  }

  lemma {:induction false} CountersGrow(s: Store, actions: seq<Action>, i: nat, j: nat, key: SeqKey)
    requires Inv(s) && i <= j <= |actions| && forall a :: a in actions ==> Submitted(a)
    ensures LastNumber(Run(s, actions[..i]).counters, s.starts, key) <= LastNumber(Run(s, actions[..j]).counters, s.starts, key)
    decreases j
  {
    if i < j {
      CountersGrow(s, actions, i, j - 1, key);
      CounterGrows(s, actions, j - 1, key);
    }
  }

  /** No two DCs of a run are ever given the same number, not even after the first was deleted. */
  lemma NumbersNeverReused(s: Store, actions: seq<Action>, i: nat, d: Id, j: nat, e: Id)
    requires Inv(s) && i <= j < |actions| && forall a :: a in actions ==> Submitted(a)
    requires CreatedAt(s, actions, i, d) && CreatedAt(s, actions, j, e) && (i == j ==> d != e)
    ensures NumberGiven(s, actions, i, d) != NumberGiven(s, actions, j, e)
  {
    PrefixStep(s, actions, i);
    PrefixStep(s, actions, j);
    StartsKept(s, actions[..i]);
    StartsKept(s, actions[..j]);
    if i < j {
      CountersGrow(s, actions, i + 1, j, NumberGiven(s, actions, i, d).key);
    }
  }

  /** Some DC was given the number in the course of the run. */
  ghost predicate GivenInRun(s: Store, actions: seq<Action>, no: DocNo) {
    exists i: nat, d :: i < |actions| && CreatedAt(s, actions, i, d) && NumberGiven(s, actions, i, d) == no
  }

  lemma GivenEarlier(s: Store, actions: seq<Action>, m: nat, no: DocNo)
    requires m <= |actions| && GivenInRun(s, actions[..m], no)
    ensures GivenInRun(s, actions, no)
  {
    var i: nat, d :| i < m && CreatedAt(s, actions[..m], i, d) && NumberGiven(s, actions[..m], i, d) == no;
    assert actions[..m][..i] == actions[..i] && actions[..m][..i + 1] == actions[..i + 1];
    assert CreatedAt(s, actions, i, d) && NumberGiven(s, actions, i, d) == no;
  }

  lemma GivenLast(s: Store, actions: seq<Action>, m: nat, no: DocNo)
    requires |actions| == m + 1 && GivenOut(Run(s, actions[..m]), Run(s, actions), no)
    ensures GivenInRun(s, actions, no)
  {
    assert actions[..m + 1] == actions;
    var d :| IsNew(Run(s, actions[..m]), Run(s, actions), d) && Run(s, actions).dcs.rows[d].number == no;
    assert CreatedAt(s, actions, m, d) && NumberGiven(s, actions, m, d) == no;
  }

  lemma GivenByLast(s: Store, actions: seq<Action>, m: nat, key: SeqKey, n: nat)
    requires Inv(s) && |actions| == m + 1 && forall a :: a in actions ==> Submitted(a)
    requires LastNumber(Run(s, actions[..m]).counters, s.starts, key) < n <= LastNumber(Run(s, actions).counters, s.starts, key)
    ensures GivenInRun(s, actions, DocNo(key, n))
  {
    assert actions[..m + 1] == actions;
    PrefixStep(s, actions, m);
    StartsKept(s, actions[..m]);
    GivenLast(s, actions, m, DocNo(key, n));
  }

  /** Counters have no gaps: every number from the configured start up to the counter went to some DC. */
  lemma {:induction false} NumbersGapless(starts: Starts, actions: seq<Action>, key: SeqKey, n: nat)
    requires forall a :: a in actions ==> Submitted(a)
    requires StartOf(starts, key) <= n <= LastNumber(Run(Empty(starts), actions).counters, starts, key)
    ensures GivenInRun(Empty(starts), actions, DocNo(key, n))
  {
    var s := Empty(starts);
    EmptyInv(starts);
    if actions != [] {
      var m := |actions| - 1;
      if n <= LastNumber(Run(s, actions[..m]).counters, starts, key) {
        NumbersGapless(starts, actions[..m], key, n);
        GivenEarlier(s, actions, m, DocNo(key, n));
      } else {
        GivenByLast(s, actions, m, key, n);
      }
    }
  }

  /** The counters never repeat, and a template with type, year and number tells them apart, so no string is ever printed twice. */
  lemma PrintedNumbersNeverRepeat(c: DocNumbers.Config, template: DocNumbers.Template,
                                  s: Store, actions: seq<Action>, i: nat, d: Id, j: nat, e: Id)
    requires DocNumbers.Uses(c, template) && DocNumbers.Separates(template)
    requires Inv(s) && i <= j < |actions| && forall a :: a in actions ==> Submitted(a)
    requires CreatedAt(s, actions, i, d) && CreatedAt(s, actions, j, e) && (i == j ==> d != e)
    requires NumberGiven(s, actions, i, d).key.project == NumberGiven(s, actions, j, e).key.project
    ensures DocNumbers.Rendered(c, NumberGiven(s, actions, i, d)) != DocNumbers.Rendered(c, NumberGiven(s, actions, j, e))
  {
    hide DocNumbers.Uses, DocNumbers.Separates, DocNumbers.Rendered;
    NumbersNeverReused(s, actions, i, d, j, e);
    DocNumbers.SeparatedPrintDifferently(c, template, NumberGiven(s, actions, i, d), NumberGiven(s, actions, j, e));
  }

  // ---- Issuing ----

  /** Issuing any DC of a group is issuing the group: same verdict, same effect. */
  lemma AnyMemberIssuesTheGroup(s: Store, tracking: TrackingTable, d: Id)
    requires MembersLinked(s.dcs, s.groups) && d in s.dcs.rows && s.dcs.rows[d].group != 0
    ensures Step(s, IssueChallan(d, tracking)) == Step(s, IssueGroup(s.dcs.rows[d].group, tracking))
    ensures SingleIssueCheck(s, tracking, d) == None ==>
      var a := Step(s, IssueChallan(d, tracking)); var g := s.dcs.rows[d].group;
      && a.groups.rows[g].status == Issued
      && (forall e :: e in Members(s.dcs, g) ==> e in a.dcs.rows && a.dcs.rows[e] == s.dcs.rows[e].(status := Issued))
      && (forall e :: e in s.dcs.rows && e !in Members(s.dcs, g) ==> e in a.dcs.rows && a.dcs.rows[e] == s.dcs.rows[e])
  {
  }
}
