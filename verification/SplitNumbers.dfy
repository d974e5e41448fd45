/** split_number on the split records of a transfer DC: num_split + 1 when a split is made,
    though num_split goes down again when one is undone. */
module SplitNumbers {
  import opened Tables
  import opened Numbering
  import opened Records
  import opened Shipments
  import opened SplitSpec
  import opened Invariants
  import opened ShipmentFacts
  import opened SplitFacts
  import opened RemovalFacts
  import opened CreationFacts
  import opened Runs
  import opened Partition
  import H = Histories

  /** No two live split records of transfer t carry the same number. */
  ghost predicate DistinctNumbers(s: Store, t: Id) {
    forall x, y :: x in SplitRecords(s, t) && y in SplitRecords(s, t) && x != y ==>
      s.splits.rows[x].number != s.splits.rows[y].number
  }

  ghost predicate NumberInUse(s: Store, t: Id, n: int) {
    exists x :: x in SplitRecords(s, t) && s.splits.rows[x].number == n
  }

  lemma SplitAddsRecord(s: Store, p: SplitParams)
    requires s.splits.Valid() && SplitCheck(s, p) == None
    ensures var t := Least(MetadataOf(s.transfers, p.dc)); var a := AfterSplit(s, p);
      && t in s.transfers.rows && t in a.transfers.rows && a.transfers.rows[t].numSplit == s.transfers.rows[t].numSplit + 1
      && s.splits.next !in s.splits.rows && SplitRecords(a, t) == SplitRecords(s, t) + {s.splits.next}
      && a.splits == s.splits.Insert(SplitRec(t, s.groups.next, s.transfers.rows[t].numSplit + 1))
  {
    hide AddShipment, ChildShipment, Mark, FirstProblem, ProgressStatus;
  }

  /** A split gives its record a number that is in use exactly when a live record carries num_split + 1 already. */
  lemma SplitNumbersExactly(s: Store, p: SplitParams)
    requires Linked(s) && SplitCheck(s, p) == None
    requires DistinctNumbers(s, Least(MetadataOf(s.transfers, p.dc)))
    ensures var t := Least(MetadataOf(s.transfers, p.dc));
      t in s.transfers.rows
      && (DistinctNumbers(AfterSplit(s, p), t) <==> !NumberInUse(s, t, s.transfers.rows[t].numSplit + 1))
  {
    hide AfterSplit, SplitCheck, Linked, SplitRecords;
    SplitsValid(s);
    SplitAddsRecord(s, p);
    var t, a := Least(MetadataOf(s.transfers, p.dc)), AfterSplit(s, p);
    RecordsListed(s, t);
    if NumberInUse(s, t, s.transfers.rows[t].numSplit + 1) {
      var x :| x in SplitRecords(s, t) && s.splits.rows[x].number == s.transfers.rows[t].numSplit + 1;
      assert x in SplitRecords(a, t) && s.splits.next in SplitRecords(a, t) && x != s.splits.next;
    }
  }

  lemma SplitsValid(s: Store)
    requires Linked(s)
    ensures s.splits.Valid()
  {
  }

  lemma RecordsListed(s: Store, t: Id)
    ensures forall x :: x in SplitRecords(s, t) ==> x in s.splits.rows
  {
  }

  // ---- Numbers without gaps ----

  /** The live records of t carry different numbers from 1 to num_split. */
  ghost predicate Dense(s: Store, t: Id) {
    && t in s.transfers.rows && DistinctNumbers(s, t)
    && forall x :: x in SplitRecords(s, t) ==> 1 <= s.splits.rows[x].number <= s.transfers.rows[t].numSplit
  }

  function NumberAt(s: Store, x: Id): nat {
    if x in s.splits.rows && s.splits.rows[x].number >= 0 then s.splits.rows[x].number else 0
  }

  /** As many records as numbers, so every number is in use. */
  lemma EveryNumberUsed(s: Store, t: Id, n: nat)
    requires Dense(s, t) && |SplitRecords(s, t)| == s.transfers.rows[t].numSplit && 1 <= n <= s.transfers.rows[t].numSplit
    ensures NumberInUse(s, t, n)
  {
    var records, count := SplitRecords(s, t), s.transfers.rows[t].numSplit;
    var f := map x | x in records :: NumberAt(s, x);
    ImageSize(records, f);
    RangeSize(1, count);
    SubsetSize(Image(records, f), IdRange(1, count));
    assert n in Image(records, f);
  }

  /** a is s with record x of transfer t undone. */
  ghost predicate RecordDropped(s: Store, a: Store, t: Id, x: Id) {
    && t in s.transfers.rows && t in a.transfers.rows && x in SplitRecords(s, t)
    && a.transfers.rows[t].numSplit == (if s.transfers.rows[t].numSplit > 0 then s.transfers.rows[t].numSplit - 1 else 0)
    && a.splits.Valid() && SplitRecords(a, t) == SplitRecords(s, t) - {x}
    && forall y :: y in SplitRecords(a, t) ==> y in s.splits.rows && y in a.splits.rows && a.splits.rows[y] == s.splits.rows[y]
  }

  lemma UndoDropsRecord(s: Store, x: Id, t: Id)
    requires Linked(s) && UndoCheck(s, x) == None && s.splits.rows[x].transfer == t
    ensures RecordDropped(s, AfterUndo(s, x), t, x)
  {
    hide Linked, AfterUndo, Undoable, UndoTables, RecordDropped;
    CheckedUndo(s, x);
    UndoneTables(s, x);
    SplitsValid(s);
    TablesDropRecord(s, AfterUndo(s, x), x, t);
  }

  lemma TablesDropRecord(s: Store, a: Store, x: Id, t: Id)
    requires s.splits.Valid() && Undoable(s, x) && UndoTables(s, a, x) && s.splits.rows[x].transfer == t
    ensures RecordDropped(s, a, t, x)
  {
    hide Restatused, Unmark, Members, LinesOfAll, SerialsOfAll;
  }

  lemma DroppedKeepsDense(s: Store, a: Store, t: Id, x: Id)
    requires RecordDropped(s, a, t, x) && Dense(s, t) && |SplitRecords(s, t)| == s.transfers.rows[t].numSplit
    ensures Dense(a, t) <==> s.splits.rows[x].number == s.transfers.rows[t].numSplit
  {
    var n := s.transfers.rows[t].numSplit;
    if s.splits.rows[x].number != n {
      EveryNumberUsed(s, t, n);
      var y :| y in SplitRecords(s, t) && s.splits.rows[y].number == n;
      assert y in SplitRecords(a, t);
    }
  }

  /** Undoing a split keeps the numbers dense exactly when it is the latest one. */
  lemma UndoKeepsDenseExactly(s: Store, x: Id, t: Id)
    requires UndoCheck(s, x) == None && s.splits.rows[x].transfer == t && Dense(s, t)
    requires Inv(s) && NoneDangling(s)
    ensures Dense(AfterUndo(s, x), t) <==> s.splits.rows[x].number == s.transfers.rows[t].numSplit
  {
    hide Inv, NoneDangling, UndoCheck, AfterUndo, SplitRecords, Linked, RecordDropped;
    InvLinked(s);
    UndoDropsRecord(s, x, t);
    RecordsCounted(s, t);
    DroppedKeepsDense(s, AfterUndo(s, x), t, x);
  }

  lemma InvLinked(s: Store)
    requires Inv(s)
    ensures Linked(s)
  {
  }

  lemma RecordsCounted(s: Store, t: Id)
    requires Inv(s) && NoneDangling(s) && t in s.transfers.rows
    ensures |SplitRecords(s, t)| == s.transfers.rows[t].numSplit
  {
    BlocksPartition(s, t);
  }

  lemma DroppedRepeats(s: Store, a: Store, t: Id, x: Id, p: SplitParams)
    requires RecordDropped(s, a, t, x) && Dense(s, t) && |SplitRecords(s, t)| == s.transfers.rows[t].numSplit
    requires s.splits.rows[x].number != s.transfers.rows[t].numSplit
    requires SplitCheck(a, p) == None && Least(MetadataOf(a.transfers, p.dc)) == t
    ensures !DistinctNumbers(AfterSplit(a, p), t)
  {
    hide SplitCheck, AfterSplit, SplitRecords;
    var n := s.transfers.rows[t].numSplit;
    RecordsListed(s, t);
    EveryNumberUsed(s, t, n);
    var y :| y in SplitRecords(s, t) && s.splits.rows[y].number == n;
    SplitAddsRecord(a, p);
    RecordsListed(a, t);
    assert y in SplitRecords(AfterSplit(a, p), t) && a.splits.next in SplitRecords(AfterSplit(a, p), t) && y != a.splits.next;
  }

  /** A split made after an earlier split was undone out of order repeats the number of the latest one. */
  lemma NumberRepeats(s: Store, x: Id, t: Id, a: Store, p: SplitParams)
    requires SplitCheck(a, p) == None && Least(MetadataOf(a.transfers, p.dc)) == t
    requires UndoCheck(s, x) == None && s.splits.rows[x].transfer == t && a == AfterUndo(s, x)
    requires Dense(s, t) && s.splits.rows[x].number != s.transfers.rows[t].numSplit
    requires Inv(s) && NoneDangling(s)
    ensures !DistinctNumbers(AfterSplit(a, p), t)
  {
    hide Inv, NoneDangling, UndoCheck, AfterUndo, SplitRecords, SplitCheck, AfterSplit, Linked, RecordDropped, DistinctNumbers;
    InvLinked(s);
    UndoDropsRecord(s, x, t);
    RecordsCounted(s, t);
    DroppedRepeats(s, a, t, x, p);
  }

  // ---- A run that repeats a number: split, split, undo the first, split again ----

  function One(d: Id): SplitParams {
    SplitParams(1, [d], map[])
  }

  function FirstSplit(starts: Starts): Store {
    Step(H.PairIssued(starts), CreateSplit(One(1)))
  }

  function SecondSplit(starts: Starts): Store {
    Step(FirstSplit(starts), CreateSplit(One(2)))
  }

  function FirstUndone(starts: Starts): Store {
    Step(SecondSplit(starts), UndoSplit(1))
  }

  function SplitAgain(starts: Starts): Store {
    Step(FirstUndone(starts), CreateSplit(One(1)))
  }

  function TwoDestinations(g: Id, h: Id): map<Id, Destination> {
    map[1 := Destination(1, 7, g != 0, g), 2 := Destination(1, 8, h != 0, h)]
  }

  /** Transfer 1 with two destinations, split for groups g and h where these are not 0. */
  ghost predicate TwoWay(s: Store, status: Status, g: Id, h: Id, n: nat) {
    && 1 in s.dcs.rows && s.dcs.rows[1].kind == Transfer && s.dcs.rows[1].status == status
    && s.transfers.rows == map[1 := TransferDc(1, 2, n)]
    && s.dests.rows == TwoDestinations(g, h)
  }

  lemma OneAccepted(s: Store, status: Status, g: Id, h: Id, n: nat, d: Id)
    requires TwoWay(s, status, g, h, n) && (status == Issued || status == Splitting) && d in {1, 2} && (if d == 1 then g else h) == 0
    ensures SplitCheck(s, One(d)) == None && Least(MetadataOf(s.transfers, 1)) == 1
  {
    assert MetadataOf(s.transfers, 1) == {1};
    assert FirstProblem(s.dests, 1, [d], 0) == None;
  }

  lemma MarkedTwo(dests: Table<Destination>, g: Id, h: Id, d: Id, x: Id)
    requires dests.rows == TwoDestinations(g, h) && d in {1, 2} && x != 0
    ensures Mark(dests, [d], x).rows == TwoDestinations(if d == 1 then x else g, if d == 2 then x else h)
  {
  }

  lemma OneTables(s: Store, a: Store, u: Table<Challan>, row: Group, status: Status, g: Id, h: Id, n: nat, d: Id)
    requires TwoWay(s, status, g, h, n) && d in {1, 2} && s.groups.next != 0
    requires SplitTables(s, a, u, 1, [d], 1, row)
    ensures TwoWay(a, ProgressStatus(n + 1, 2), if d == 1 then s.groups.next else g, if d == 2 then s.groups.next else h, n + 1)
    ensures a.groups == s.groups.Insert(row) && row.status == Draft
    ensures a.splits == s.splits.Insert(SplitRec(1, s.groups.next, n + 1))
  {
    hide ChallansAdded, LinesWithin, SerialsWithin, Mark, TwoDestinations;
    assert a.transfers.rows == map[1 := TransferDc(1, 2, n + 1)];
    MarkedTwo(s.dests, g, h, d, s.groups.next);
  }

  ghost predicate SplitDraft(s: Store, a: Store, n: nat) {
    && s.groups.next != 0 && a.groups.next == s.groups.next + 1
    && a.groups.rows.Keys == s.groups.rows.Keys + {s.groups.next} && a.groups.rows[s.groups.next].status == Draft
    && (forall g :: g in s.groups.rows ==> a.groups.rows[g] == s.groups.rows[g])
    && a.splits == s.splits.Insert(SplitRec(1, s.groups.next, n + 1))
  }

  lemma OneSplit(s: Store, status: Status, g: Id, h: Id, n: nat, d: Id)
    requires TwoWay(s, status, g, h, n) && (status == Issued || status == Splitting) && d in {1, 2} && (if d == 1 then g else h) == 0
    requires Inv(s) && s.groups.next !in s.groups.rows
    ensures var a := Step(s, CreateSplit(One(d)));
      && TwoWay(a, ProgressStatus(n + 1, 2), if d == 1 then s.groups.next else g, if d == 2 then s.groups.next else h, n + 1)
      && SplitDraft(s, a, n) && Inv(a)
  {
    hide Inv, TwoWay, SplitTables, SplitCheck, Linked, Splittable, Step, AfterSplit, AddShipment, ChildShipment;
    InvLinked(s);
    OneAccepted(s, status, g, h, n, d);
    AcceptedSplit(s, One(d));
    SplitKeepsInv(s, One(d));
    OneSplitTables(s, One(d), d);
    var sh := ChildShipment(s, One(d));
    OneTables(s, AfterSplit(s, One(d)), AddShipment(s, sh).dcs, Group(sh.project, sh.locations, Draft, 1, s.splits.next), status, g, h, n, d);
  }

  lemma AcceptedSplit(s: Store, p: SplitParams)
    requires SplitCheck(s, p) == None
    ensures Step(s, CreateSplit(p)) == AfterSplit(s, p)
  {
    hide SplitCheck, AfterSplit;
  }

  lemma OneSplitTables(s: Store, p: SplitParams, d: Id)
    requires p == One(d) && SplitCheck(s, p) == None && Least(MetadataOf(s.transfers, p.dc)) == 1 && Linked(s)
    ensures s.groups.next != 0 && 1 in s.transfers.rows
    ensures var sh := ChildShipment(s, p);
      SplitTables(s, AfterSplit(s, p), AddShipment(s, sh).dcs, 1, [d], 1, Group(sh.project, sh.locations, Draft, 1, s.splits.next))
  {
    hide SplitTables;
    CheckedSplit(s, p);
    SplitOffTables(s, 1, [d], 1, ChildShipment(s, p));
  }

  lemma UnmarkedTwo(dests: Table<Destination>, h: Id)
    requires dests.rows == TwoDestinations(1, h) && h != 1
    ensures Unmark(dests, 1, 1).rows == TwoDestinations(0, h)
  {
  }

  lemma UndoOne(s: Store, h: Id)
    requires TwoWay(s, Split, 1, h, 2) && h != 0 && h != 1
    requires 1 in s.splits.rows && s.splits.rows[1] == SplitRec(1, 1, 1)
    requires 1 in s.groups.rows && s.groups.rows[1].status == Draft
    requires SplitsOf(s.splits, 1) == {1} && 1 !in Members(s.dcs, 1)
    ensures UndoCheck(s, 1) == None
    ensures var a := Step(s, UndoSplit(1));
      && TwoWay(a, Splitting, 0, h, 1) && a.splits == s.splits.Delete({1}) && a.groups == s.groups.Delete({1})
  {
    hide Unmark, TwoDestinations, Members, LinesOfAll, SerialsOfAll;
    UnmarkedTwo(s.dests, h);
    var a := AfterUndo(s, 1);
    assert a.transfers.rows == map[1 := TransferDc(1, 2, 1)];
    assert a.splits.rows == s.splits.Delete({1}).rows;
  }

  lemma ParentIsNoMember(s: Store, status: Status, g: Id, h: Id, n: nat)
    requires Linked(s) && TwoWay(s, status, g, h, n) && g != 0
    ensures 1 !in Members(s.dcs, g)
  {
  }

  /** After the run both live records of the transfer carry number 2. */
  lemma RepeatedRun(starts: Starts)
    ensures var s := SplitAgain(starts);
      SplitRecords(s, 1) == {2, 3} && s.splits.rows[2].number == 2 && s.splits.rows[3].number == 2
  {
    hide Inv, Linked, Step, TwoWay, H.PairIssued;
    PairStart(starts);
    OneSplit(H.PairIssued(starts), Issued, 0, 0, 0, 1);
    OneSplit(FirstSplit(starts), Splitting, 1, 0, 1, 2);
    var s := SecondSplit(starts);
    InvLinked(s);
    ParentIsNoMember(s, Split, 1, 2, 2);
    UndoOne(s, 2);
    UndoneSound(starts);
    OneSplit(FirstUndone(starts), Splitting, 0, 2, 1, 1);
  }

  lemma PairStart(starts: Starts)
    ensures var s := H.PairIssued(starts);
      Inv(s) && TwoWay(s, Issued, 0, 0, 0) && s.splits == Table(map[], 1) && s.groups == Table(map[], 1)
  {
    hide Inv, TwoWay, Step, H.PairTables;
    H.PairTransferTables(starts);
    H.PairIssuedTables(H.PairTransfer(starts));
    StartsTwoWay(H.PairIssued(starts));
    EmptyInv(starts);
    PairSubmitted();
    StepKeepsInv(Empty(starts), CreateTransfer(H.PairPlan()));
    StepKeepsInv(H.PairTransfer(starts), IssueChallan(1, map[]));
  }

  lemma PairSubmitted()
    ensures Submitted(CreateTransfer(H.PairPlan())) && Submitted(IssueChallan(1, map[]))
  {
  }

  lemma StartsTwoWay(s: Store)
    requires H.PairTables(s, Issued)
    ensures TwoWay(s, Issued, 0, 0, 0) && s.splits == Table(map[], 1) && s.groups == Table(map[], 1)
  {
  }

  lemma UndoneSound(starts: Starts)
    requires Inv(SecondSplit(starts))
    ensures Inv(FirstUndone(starts))
  {
    hide Inv, Step;
    StepKeepsInv(SecondSplit(starts), UndoSplit(1));
  }
}
