/** Undoing splits: right after creating one, and two of them in either order. */
module RoundTrip {
  import opened Tables
  import opened Records
  import opened Shipments
  import opened SplitSpec
  import opened Invariants
  import opened ShipmentFacts
  import opened SplitFacts
  import opened RemovalFacts

  // ---- Undo after create ----

  /** The same records in every table; only ids and numbers not handed out yet may differ. */
  ghost predicate SameRecords(s: Store, a: Store) {
    && a.dcs.rows == s.dcs.rows && a.lines.rows == s.lines.rows && a.serials.rows == s.serials.rows
    && a.transfers == s.transfers && a.dests == s.dests && a.plans == s.plans
    && a.splits.rows == s.splits.rows && a.groups.rows == s.groups.rows && a.starts == s.starts
  }

  lemma MarkThenUnmark(dests: Table<Destination>, groups: Table<Group>, ds: seq<Id>, t: Id)
    requires Selectable(dests, ds, t) && BlocksLinked(dests, groups) && groups.Valid()
    ensures Unmark(Mark(dests, ds, groups.next), t, groups.next) == dests
  {
    var g := groups.next;
    MarkedBlock(dests, groups, ds, t, g);
    assert Unmark(Mark(dests, ds, g), t, g).rows == dests.rows;
  }

  lemma AddedSerialsOnNewLines(s: Store, sh: Shipment)
    requires s.serials.Valid() && s.lines.Valid()
    ensures var u := AddShipment(s, sh).serials;
      forall x :: x in u.rows && x !in s.serials.rows ==> s.lines.next <= u.rows[x].line
  {
    InsertAllExtends(s.serials, SerialRows(sh.items, sh.project, s.lines.next, |sh.items|));
    SerialRowsAddressed(sh.items, sh.project, s.lines.next, |sh.items|);
  }

  /** The members of the new group are exactly the DCs that were added. */
  lemma NewMembers(s: Store, a: Store, u: Table<Challan>, dc: Id, ds: seq<Id>, t: Id, row: Group)
    requires s.dcs.Valid() && s.groups.Valid() && MembersLinked(s.dcs, s.groups)
    requires t in s.transfers.rows && SplitTables(s, a, u, dc, ds, t, row)
    ensures Members(a.dcs, s.groups.next) == IdRange(s.dcs.next, |ds| + 1)
  {
    AddedMembers(s.dcs, u, |ds|, s.groups);
  }

  lemma ChallansRestored(s: Store, a: Store, u: Table<Challan>, dc: Id, ds: seq<Id>, t: Id, row: Group)
    requires s.dcs.Valid() && s.groups.Valid() && MembersLinked(s.dcs, s.groups) && dc in s.dcs.rows
    requires t in s.transfers.rows && SplitTables(s, a, u, dc, ds, t, row)
    ensures dc in a.dcs.rows && a.dcs.rows[dc].(status := s.dcs.rows[dc].status) == s.dcs.rows[dc]
    ensures a.dcs.Delete(Members(a.dcs, s.groups.next)).Update(dc, s.dcs.rows[dc]).rows == s.dcs.rows
  {
    NewMembers(s, a, u, dc, ds, t, row);
  }

  lemma LinesRestored(s: Store, a: Store, ms: set<Id>, n: nat)
    requires RowsLinked(s) && Tabled(s) && LinesWithin(s.lines, a.lines, s.dcs.next, s.dcs.next + n)
    requires ms == IdRange(s.dcs.next, n + 1)
    ensures LinesOfAll(a.lines, ms) == a.lines.rows.Keys - s.lines.rows.Keys
    ensures a.lines.rows - LinesOfAll(a.lines, ms) == s.lines.rows
  {
  }

  lemma SerialsRestored(s: Store, a: Store, ls: set<Id>)
    requires RowsLinked(s) && Tabled(s) && SerialsWithin(s.serials, a.serials, a.lines)
    requires ls == a.lines.rows.Keys - s.lines.rows.Keys
    requires forall x :: x in a.serials.rows && x !in s.serials.rows ==> s.lines.next <= a.serials.rows[x].line
    ensures a.serials.rows - SerialsOfAll(a.serials, ls) == s.serials.rows
  {
  }

  lemma SplitIsUndoable(s: Store, a: Store, u: Table<Challan>, dc: Id, ds: seq<Id>, t: Id, row: Group)
    requires Linked(s) && t in s.transfers.rows && s.transfers.rows[t].dc == dc && dc in s.dcs.rows
    requires SplitTables(s, a, u, dc, ds, t, row)
    ensures UndoCheck(a, s.splits.next) == None
    ensures SplitsOf(a.splits, s.groups.next) == {s.splits.next}
  {
  }

  /** What undoing split x of transfer t, group g and DC dc leaves, table by table. */
  ghost predicate UndoneTo(a: Store, b: Store, x: Id, t: Id, g: Id, dc: Id) {
    && t in a.transfers.rows && dc in a.dcs.rows
    && var ls := LinesOfAll(a.lines, Members(a.dcs, g)); var meta := a.transfers.rows[t];
    var n := if meta.numSplit > 0 then meta.numSplit - 1 else 0;
    && b.dcs == a.dcs.Delete(Members(a.dcs, g)).Update(dc, a.dcs.rows[dc].(status := ProgressStatus(n, meta.numDestinations)))
    && b.lines.rows == a.lines.rows - ls && b.serials.rows == a.serials.rows - SerialsOfAll(a.serials, ls)
    && b.transfers == a.transfers.Update(t, meta.(numSplit := n))
    && b.dests == Unmark(a.dests, t, g) && b.plans == a.plans
    && b.splits.rows == a.splits.rows - {x} && b.groups.rows == a.groups.rows - {g}
    && b.counters == a.counters && b.starts == a.starts
  }

  lemma UndoneRows(a: Store, x: Id, t: Id, g: Id, dc: Id)
    requires UndoCheck(a, x) == None && a.splits.rows[x].transfer == t && a.splits.rows[x].group == g
    requires a.transfers.rows[t].dc == dc && SplitsOf(a.splits, g) == {x}
    ensures UndoneTo(a, AfterUndo(a, x), x, t, g, dc)
  {
    assert (a.splits.rows - {x}) - {x} == a.splits.rows - {x};
  }

  /** The DC table with the new members gone and the old count's status back on the parent. */
  lemma StatusRestored(s: Store, a: Store, u: Table<Challan>, dc: Id, ds: seq<Id>, t: Id, row: Group)
    requires s.dcs.Valid() && s.groups.Valid() && MembersLinked(s.dcs, s.groups) && dc in s.dcs.rows
    requires t in s.transfers.rows && s.transfers.rows[t].dc == dc && s.dcs.rows[dc].status != Draft
    requires OnTrack(s.dcs, s.transfers, s.dests, t) && SplitTables(s, a, u, dc, ds, t, row)
    ensures dc in a.dcs.rows
    ensures var meta := s.transfers.rows[t];
      a.dcs.Delete(Members(a.dcs, s.groups.next))
        .Update(dc, a.dcs.rows[dc].(status := ProgressStatus(meta.numSplit, meta.numDestinations))).rows == s.dcs.rows
  {
    ChallansRestored(s, a, u, dc, ds, t, row);
  }

  lemma SmallTablesRestored(s: Store, a: Store, u: Table<Challan>, dc: Id, ds: seq<Id>, t: Id, row: Group)
    requires s.splits.Valid() && s.groups.Valid() && t in s.transfers.rows && SplitTables(s, a, u, dc, ds, t, row)
    ensures a.splits.rows - {s.splits.next} == s.splits.rows && a.groups.rows - {s.groups.next} == s.groups.rows
    ensures a.transfers.Update(t, a.transfers.rows[t].(numSplit := s.transfers.rows[t].numSplit)) == s.transfers
  {
    assert a.transfers.Update(t, s.transfers.rows[t]).rows == s.transfers.rows;
  }

  /** a's new split undone. */
  lemma SplitTablesUndone(s: Store, a: Store, b: Store, u: Table<Challan>, dc: Id, ds: seq<Id>, t: Id, row: Group)
    requires Tabled(s) && RowsLinked(s) && MembersLinked(s.dcs, s.groups) && BlocksLinked(s.dests, s.groups)
    requires Selectable(s.dests, ds, t)
    requires t in s.transfers.rows && s.transfers.rows[t].dc == dc && dc in s.dcs.rows && s.dcs.rows[dc].status != Draft
    requires OnTrack(s.dcs, s.transfers, s.dests, t)
    requires SplitTables(s, a, u, dc, ds, t, row) && a.starts == s.starts
    requires forall x :: x in a.serials.rows && x !in s.serials.rows ==> s.lines.next <= a.serials.rows[x].line
    requires UndoneTo(a, b, s.splits.next, t, s.groups.next, dc)
    ensures SameRecords(s, b)
  {
    var g := s.groups.next;
    NewMembers(s, a, u, dc, ds, t, row);
    StatusRestored(s, a, u, dc, ds, t, row);
    LinesRestored(s, a, Members(a.dcs, g), |ds|);
    SerialsRestored(s, a, LinesOfAll(a.lines, Members(a.dcs, g)));
    MarkThenUnmark(s.dests, s.groups, ds, t);
    SmallTablesRestored(s, a, u, dc, ds, t, row);
  }

  /** Undoing a split right after creating it puts every record back as it was. */
  lemma UndoAfterSplit(s: Store, p: SplitParams)
    requires Inv(s) && SplitCheck(s, p) == None
    ensures var a := AfterSplit(s, p); var x := s.splits.next;
      && UndoCheck(a, x) == None
      && SameRecords(s, AfterUndo(a, x)) && AfterUndo(a, x).counters == a.counters
  {
    var t, sh := Least(MetadataOf(s.transfers, p.dc)), ChildShipment(s, p);
    CheckedSplit(s, p);
    SplitOffTables(s, p.dc, p.dests, t, sh);
    AddedSerialsOnNewLines(s, sh);
    var a, u, row := AfterSplit(s, p), AddShipment(s, sh).dcs, Group(sh.project, sh.locations, Draft, t, s.splits.next);
    SplitIsUndoable(s, a, u, p.dc, p.dests, t, row);
    UndoneRows(a, s.splits.next, t, s.groups.next, p.dc);
    assert OnTrack(s.dcs, s.transfers, s.dests, t);
    SplitTablesUndone(s, a, AfterUndo(a, s.splits.next), u, p.dc, p.dests, t, row);
  }

  // ---- Two undos in either order ----

  ghost predicate Apart(s: Store, x: Id, y: Id) {
    Undoable(s, x) && Undoable(s, y) && s.splits.rows[x].group != s.splits.rows[y].group
  }

  lemma DifferentSplits(s: Store, x: Id, y: Id)
    requires Undoable(s, x) && Undoable(s, y) && x != y
    ensures Apart(s, x, y)
  {
  }

  lemma StillUndoable(s: Store, a: Store, x: Id, y: Id)
    requires Apart(s, x, y) && MembersLinked(s.dcs, s.groups) && UndoTables(s, a, x)
    ensures Undoable(a, y) && UndoCheck(a, y) == None && a.splits.rows[y] == s.splits.rows[y]
    ensures Members(a.dcs, s.splits.rows[y].group) == Members(s.dcs, s.splits.rows[y].group)
  {
  }

  ghost predicate BothWays(s: Store, a: Store, b: Store, c: Store, d: Store, x: Id, y: Id) {
    && Apart(s, x, y) && UndoTables(s, a, x) && UndoTables(s, b, y)
    && Undoable(a, y) && a.splits.rows[y] == s.splits.rows[y]
    && Undoable(b, x) && b.splits.rows[x] == s.splits.rows[x]
    && Members(a.dcs, s.splits.rows[y].group) == Members(s.dcs, s.splits.rows[y].group)
    && Members(b.dcs, s.splits.rows[x].group) == Members(s.dcs, s.splits.rows[x].group)
    && UndoTables(a, c, y) && UndoTables(b, d, x)
  }

  lemma LinesCommute(s: Store, a: Store, b: Store, c: Store, d: Store, x: Id, y: Id)
    requires BothWays(s, a, b, c, d, x, y)
    ensures c.lines == d.lines && c.serials == d.serials
  {
    var m, n := Members(s.dcs, s.splits.rows[x].group), Members(s.dcs, s.splits.rows[y].group);
    LineTablesCommute(s.lines, m, n);
    SerialsCommute(s.serials, LinesOfAll(s.lines, m), LinesOfAll(s.lines, n));
  }

  lemma LineTablesCommute(lines: Table<Line>, m: set<Id>, n: set<Id>)
    requires m !! n
    ensures var a := lines.Delete(LinesOfAll(lines, m)); var b := lines.Delete(LinesOfAll(lines, n));
      && LinesOfAll(a, n) == LinesOfAll(lines, n) && LinesOfAll(b, m) == LinesOfAll(lines, m)
      && a.Delete(LinesOfAll(lines, n)) == b.Delete(LinesOfAll(lines, m))
  {
    var a, b := lines.Delete(LinesOfAll(lines, m)), lines.Delete(LinesOfAll(lines, n));
    assert LinesOfAll(a, n) == LinesOfAll(lines, n) && LinesOfAll(b, m) == LinesOfAll(lines, m);
    assert a.Delete(LinesOfAll(lines, n)).rows == b.Delete(LinesOfAll(lines, m)).rows;
  }

  lemma SerialsCommute(serials: Table<Serial>, ls: set<Id>, ks: set<Id>)
    ensures var a := serials.Delete(SerialsOfAll(serials, ls)); var b := serials.Delete(SerialsOfAll(serials, ks));
      a.Delete(SerialsOfAll(a, ks)) == b.Delete(SerialsOfAll(b, ls))
  {
    var a, b := serials.Delete(SerialsOfAll(serials, ls)), serials.Delete(SerialsOfAll(serials, ks));
    assert a.Delete(SerialsOfAll(a, ks)).rows == b.Delete(SerialsOfAll(b, ls)).rows;
  }

  lemma GroupsCommute(s: Store, a: Store, b: Store, c: Store, d: Store, x: Id, y: Id)
    requires BothWays(s, a, b, c, d, x, y)
    ensures c.groups == d.groups && c.splits == d.splits && c.plans == d.plans && c.counters == d.counters
  {
    GroupTablesCommute(s.groups, s.splits, s.splits.rows[x].group, s.splits.rows[y].group);
  }

  lemma GroupTablesCommute(groups: Table<Group>, splits: Table<SplitRec>, g: Id, h: Id)
    ensures groups.Delete({g}).Delete({h}) == groups.Delete({h}).Delete({g})
    ensures var a, b := splits.Delete(SplitsOf(splits, g)), splits.Delete(SplitsOf(splits, h));
      a.Delete(SplitsOf(a, h)) == b.Delete(SplitsOf(b, g))
  {
    assert groups.Delete({g}).Delete({h}).rows == groups.Delete({h}).Delete({g}).rows;
    var a, b := splits.Delete(SplitsOf(splits, g)), splits.Delete(SplitsOf(splits, h));
    assert a.Delete(SplitsOf(a, h)).rows == b.Delete(SplitsOf(b, g)).rows;
  }

  lemma DestinationsCommute(dests: Table<Destination>, t: Id, g: Id, u: Id, h: Id)
    requires g != h && g != 0 && h != 0
    ensures Unmark(Unmark(dests, t, g), u, h) == Unmark(Unmark(dests, u, h), t, g)
  {
    assert Unmark(Unmark(dests, t, g), u, h).rows == Unmark(Unmark(dests, u, h), t, g).rows;
  }

  function Uncounted(transfers: Table<TransferDc>, t: Id): Table<TransferDc>
    requires t in transfers.rows
  {
    var meta := transfers.rows[t];
    transfers.Update(t, meta.(numSplit := if meta.numSplit > 0 then meta.numSplit - 1 else 0))
  }

  lemma CountsCommute(transfers: Table<TransferDc>, t: Id, u: Id)
    requires t in transfers.rows && u in transfers.rows
    ensures Uncounted(Uncounted(transfers, t), u) == Uncounted(Uncounted(transfers, u), t)
  {
    assert Uncounted(Uncounted(transfers, t), u).rows == Uncounted(Uncounted(transfers, u), t).rows;
  }

  function Reset(dcs: Table<Challan>, m: set<Id>, p: Id, status: Status): Table<Challan>
    requires p in dcs.rows
  {
    dcs.Delete(m).Update(p, dcs.rows[p].(status := status))
  }

  lemma ResetsCommute(dcs: Table<Challan>, m: set<Id>, p: Id, n: set<Id>, q: Id, sp: Status, sq: Status, tp: Status, tq: Status)
    requires p in dcs.rows && q in dcs.rows && p !in m + n && q !in m + n
    requires if p == q then tp == tq else sp == tp && sq == tq
    ensures Reset(Reset(dcs, m, p, sp), n, q, tq) == Reset(Reset(dcs, n, q, sq), m, p, tp)
  {
    assert Reset(Reset(dcs, m, p, sp), n, q, tq).rows == Reset(Reset(dcs, n, q, sq), m, p, tp).rows;
  }

  lemma UndoResets(s: Store, a: Store, x: Id)
    requires Undoable(s, x) && UndoTables(s, a, x)
    ensures var t := s.splits.rows[x].transfer; var meta := Uncounted(s.transfers, t).rows[t];
      && a.transfers == Uncounted(s.transfers, t)
      && a.dcs == Reset(s.dcs, Members(s.dcs, s.splits.rows[x].group), meta.dc, ProgressStatus(meta.numSplit, meta.numDestinations))
  {
  }

  lemma ChallansCommute(s: Store, a: Store, b: Store, c: Store, d: Store, x: Id, y: Id)
    requires BothWays(s, a, b, c, d, x, y) && MetadataLinked(s.dcs, s.transfers)
    ensures c.dcs == d.dcs && c.transfers == d.transfers
  {
    var t, u := s.splits.rows[x].transfer, s.splits.rows[y].transfer;
    UndoResets(s, a, x);
    UndoResets(s, b, y);
    UndoResets(a, c, y);
    UndoResets(b, d, x);
    CountsCommute(s.transfers, t, u);
    var p, q := s.transfers.rows[t].dc, s.transfers.rows[u].dc;
    ResetsCommute(s.dcs, Members(s.dcs, s.splits.rows[x].group), p, Members(s.dcs, s.splits.rows[y].group), q,
                  a.dcs.rows[p].status, b.dcs.rows[q].status, d.dcs.rows[p].status, c.dcs.rows[q].status);
  }

  /** Two draft splits, of one transfer or of two, can be undone in either order with the same result. */
  lemma UndosCommute(s: Store, x: Id, y: Id)
    requires Inv(s) && x != y && UndoCheck(s, x) == None && UndoCheck(s, y) == None
    ensures UndoCheck(AfterUndo(s, x), y) == None && UndoCheck(AfterUndo(s, y), x) == None
    ensures AfterUndo(AfterUndo(s, x), y) == AfterUndo(AfterUndo(s, y), x)
  {
    CheckedUndo(s, x);
    CheckedUndo(s, y);
    DifferentSplits(s, x, y);
    var a, b := AfterUndo(s, x), AfterUndo(s, y);
    UndoneTables(s, x);
    UndoneTables(s, y);
    StillUndoable(s, a, x, y);
    StillUndoable(s, b, y, x);
    var c, d := AfterUndo(a, y), AfterUndo(b, x);
    UndoneTables(a, y);
    UndoneTables(b, x);
    assert BothWays(s, a, b, c, d, x, y);
    Commuted(s, a, b, c, d, x, y);
  }

  lemma Commuted(s: Store, a: Store, b: Store, c: Store, d: Store, x: Id, y: Id)
    requires BothWays(s, a, b, c, d, x, y) && MetadataLinked(s.dcs, s.transfers) && c.starts == d.starts
    ensures c == d
  {
    LinesCommute(s, a, b, c, d, x, y);
    GroupsCommute(s, a, b, c, d, x, y);
    DestinationsCommute(s.dests, s.splits.rows[x].transfer, s.splits.rows[x].group,
                        s.splits.rows[y].transfer, s.splits.rows[y].group);
    ChallansCommute(s, a, b, c, d, x, y);
  }
}
