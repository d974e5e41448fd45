/** When a child group can be issued: what its split allotted, and nothing about the serials of other DCs. */
module ChildSerials {
  import opened Tables
  import opened Numbering
  import opened Records
  import opened Shipments
  import opened CreationSpec
  import opened CreationAccounts
  import opened SplitSpec
  import opened IssueSpec
  import opened Invariants
  import opened ShipmentFacts
  import opened SplitFacts
  import opened SplitBalance
  import opened SerialRules
  import opened PlacedLines
  import opened Runs
  import S = Serials

  // ---- What makes a child group issuable ----

  /** What the split allots to parent line l: distinct serials, and as many as planned where tracking requires them. */
  ghost predicate AllotmentOk(s: Store, p: SplitParams, tracking: TrackingTable, l: Id)
    requires l in s.lines.rows
  {
    var key, serials := s.lines.rows[l].key, if l in p.allotted then p.allotted[l] else [];
    && S.NoRepeats(serials)
    && (key in tracking && tracking[key] == Required ==> |serials| == PlannedTotal(s.plans, p.dests, key, |p.dests|))
  }

  /** The same of an item of the child shipment. */
  ghost predicate ItemOk(it: Item, tracking: TrackingTable) {
    && S.NoRepeats(it.serials)
    && (it.line.key in tracking && tracking[it.line.key] == Required && it.line.quantity > 0 ==> |it.serials| == it.line.quantity)
  }

  lemma LineByItem(a: Store, tracking: TrackingTable, it: Item, x: Id, l: Id)
    requires l in a.lines.rows && a.lines.rows[l] == it.line.(dc := x) && LineTexts(a.serials, l) == it.serials
    ensures LineAcceptable(a, tracking, l) <==> ItemOk(it, tracking)
  {
    hide S.NoRepeats;
    assert |LineTexts(a.serials, l)| == |SerialsOf(a.serials, l)|;
  }

  ghost predicate ItemsOk(items: seq<Item>, tracking: TrackingTable) {
    forall i :: 0 <= i < |items| ==> ItemOk(items[i], tracking)
  }

  ghost predicate AllotmentsOk(s: Store, p: SplitParams, tracking: TrackingTable, picked: seq<Id>) {
    forall l :: l in picked ==> l in s.lines.rows && AllotmentOk(s, p, tracking, l)
  }

  lemma AcceptableByItems(a: Store, tracking: TrackingTable, items: seq<Item>, x: Id, first: Id)
    requires LinesPlaced(a.lines, items, x, first)
    requires LinesCarry(a.serials, items, first, |items|)
    ensures Acceptable(a, tracking, x) <==> ItemsOk(items, tracking)
  {
    hide LineAcceptable, ItemOk, LineTexts, SerialsOf;
    if Acceptable(a, tracking, x) {
      forall i | 0 <= i < |items|
        ensures ItemOk(items[i], tracking)
      {
        assert first + i in LinesOf(a.lines, x);
        LineByItem(a, tracking, items[i], x, first + i);
      }
    }
    if ItemsOk(items, tracking) {
      forall l | l in LinesOf(a.lines, x)
        ensures LineAcceptable(a, tracking, l)
      {
        var i := l - first;
        assert ItemOk(items[i], tracking) && LineTexts(a.serials, first + i) == items[i].serials;
        LineByItem(a, tracking, items[i], x, l);
      }
    }
  }

  lemma {:induction false} PickedPositive(s: Store, p: SplitParams, ids: seq<Id>, n: nat)
    requires n <= |ids| && forall l :: l in ids ==> l in s.lines.rows
    ensures forall l :: l in Picked(s.lines, s.plans, ids, p.dests, n) ==>
      l in s.lines.rows && PlannedTotal(s.plans, p.dests, s.lines.rows[l].key, |p.dests|) > 0
  {
    hide PlannedTotal;
    if n > 0 {
      PickedPositive(s, p, ids, n - 1);
    }
  }

  lemma AllPickedPositive(s: Store, p: SplitParams)
    ensures forall l :: l in PickedLines(s, p) ==>
      l in s.lines.rows && PlannedTotal(s.plans, p.dests, s.lines.rows[l].key, |p.dests|) > 0
  {
    hide PlannedTotal, Picked;
    PickedPositive(s, p, ParentLines(s, p.dc), |ParentLines(s, p.dc)|);
  }

  lemma ItemByAllotment(s: Store, p: SplitParams, tracking: TrackingTable, l: Id)
    requires l in s.lines.rows && PlannedTotal(s.plans, p.dests, s.lines.rows[l].key, |p.dests|) > 0
    ensures ItemOk(SplitItem(s, p, l), tracking) <==> AllotmentOk(s, p, tracking, l)
  {
  }

  lemma ItemsByAllotment(s: Store, p: SplitParams, tracking: TrackingTable, picked: seq<Id>)
    requires forall l :: l in picked ==> l in s.lines.rows && PlannedTotal(s.plans, p.dests, s.lines.rows[l].key, |p.dests|) > 0
    ensures ItemsOk(SplitItems(s, p, picked), tracking) <==> AllotmentsOk(s, p, tracking, picked)
  {
    hide ItemOk, AllotmentOk, PlannedTotal, SplitItem;
    forall i | 0 <= i < |picked|
      ensures picked[i] in picked && (ItemOk(SplitItems(s, p, picked)[i], tracking) <==> AllotmentOk(s, p, tracking, picked[i]))
    {
      ItemByAllotment(s, p, tracking, picked[i]);
    }
  }

  // ---- The child group ----

  lemma OnlyTransit(s: Store, a: Store, u: Table<Challan>, dc: Id, ds: seq<Id>, t: Id, row: Group)
    requires s.dcs.Valid() && s.groups.Valid() && MembersLinked(s.dcs, s.groups)
    requires t in s.transfers.rows && SplitTables(s, a, u, dc, ds, t, row)
    ensures TransitMembers(a.dcs, s.groups.next) == {s.dcs.next}
    ensures s.groups.next in a.groups.rows && a.groups.rows[s.groups.next].status == Draft
  {
    hide LinesWithin, SerialsWithin, Mark;
    assert s.groups.next !in s.groups.rows && s.groups.next != 0;
    forall d | d in TransitMembers(a.dcs, s.groups.next)
      ensures d == s.dcs.next
    {
    }
  }

  lemma ChildTransit(s: Store, p: SplitParams)
    requires SplitCheck(s, p) == None && Linked(s)
    ensures var a := AfterSplit(s, p);
      && TransitMembers(a.dcs, s.groups.next) == {s.dcs.next}
      && s.groups.next in a.groups.rows && a.groups.rows[s.groups.next].status == Draft
  {
    var t, sh := Least(MetadataOf(s.transfers, p.dc)), ChildShipment(s, p);
    hide SplitTables, SplitCheck, TransitMembers;
    CheckedSplit(s, p);
    SplitOffTables(s, p.dc, p.dests, t, sh);
    OnlyTransit(s, AfterSplit(s, p), AddShipment(s, sh).dcs, p.dc, p.dests, t, Group(sh.project, sh.locations, Draft, t, s.splits.next));
  }

  lemma ChildAcceptable(s: Store, p: SplitParams, tracking: TrackingTable)
    requires SplitCheck(s, p) == None && Linked(s)
    ensures Acceptable(AfterSplit(s, p), tracking, s.dcs.next) <==> AllotmentsOk(s, p, tracking, PickedLines(s, p))
  {
    hide Linked, SplitCheck, AfterSplit, ChildShipment, AllotmentsOk, ItemsOk, Acceptable, LinesCarry, LinesPlaced,
      Before, PickedLines, PlannedTotal, Table.InsertAll, OfficialLines, SerialRows, SplitConsignments;
    AllPickedPositive(s, p);
    var a, sh := AfterSplit(s, p), ChildShipment(s, p);
    ChildParts(s, p);
    ChildRows(s, p);
    NewLinesFresh(s);
    ItemsPlaced(s, a, sh);
    AcceptableByItems(a, tracking, sh.items, s.dcs.next, s.lines.next);
    ItemsByAllotment(s, p, tracking, PickedLines(s, p));
  }

  lemma IssuableByTransit(a: Store, tracking: TrackingTable, g: Id, x: Id)
    requires Inv(a) && g in a.groups.rows && a.groups.rows[g].status == Draft && TransitMembers(a.dcs, g) == {x}
    ensures GroupIssueCheck(a, tracking, g) == None <==> Acceptable(a, tracking, x)
  {
    hide Inv, Acceptable, GroupIssueCheck, TransitMembers;
    GroupIssuableExactly(a, tracking, g);
  }

  /** Whether a freshly split child group can be issued is settled by what was allotted to it alone:
      the serials of its parent, or of any other DC, do not come into it. */
  lemma ChildIssuableExactly(s: Store, p: SplitParams, tracking: TrackingTable)
    requires SplitCheck(s, p) == None && CleanSplit(p) && Inv(s)
    ensures GroupIssueCheck(AfterSplit(s, p), tracking, s.groups.next) == None <==>
      forall l :: l in PickedLines(s, p) ==> l in s.lines.rows && AllotmentOk(s, p, tracking, l)
  {
    hide Inv, Linked, SplitCheck, CleanSplit, AfterSplit, PickedLines, AllotmentOk, Acceptable, GroupIssueCheck, TransitMembers;
    LinksOf(s);
    SplitKeepsInv(s, p);
    ChildTransit(s, p);
    IssuableByTransit(AfterSplit(s, p), tracking, s.groups.next, s.dcs.next);
    ChildAcceptable(s, p, tracking);
  }

  lemma LinksOf(s: Store)
    requires Inv(s)
    ensures Linked(s)
  {
  }

  // ---- A run whose child group records the serial of its parent ----

  /** One destination gets one tracked item with one serial. */
  function CratePlan(key: SourceKey, text: string): CreateParams {
    CreateParams(1, CalendarDate(2025, 4), [7], [ItemParams(key, 0.0, 0.0, [1], 1, [text])])
  }

  function CrateSplit(text: string): SplitParams {
    SplitParams(1, [1], map[1 := [text]])
  }

  function CrateTransfer(starts: Starts, key: SourceKey, text: string): Store {
    Step(Empty(starts), CreateTransfer(CratePlan(key, text)))
  }

  function CrateIssued(starts: Starts, key: SourceKey, text: string): Store {
    Step(CrateTransfer(starts, key, text), IssueChallan(1, map[key := Required]))
  }

  function CrateChild(starts: Starts, key: SourceKey, text: string): Store {
    Step(CrateIssued(starts, key, text), CreateSplit(CrateSplit(text)))
  }

  function CrateLine(key: SourceKey): Line {
    PricedLine(key, 1, 0.0, 0.0, 1).(dc := 1)
  }

  ghost predicate CrateTables(s: Store, status: Status, key: SourceKey, text: string) {
    && s.dcs.rows.Keys == {1} && s.dcs.next == 2 && s.dcs.rows[1].project == 1 && s.dcs.rows[1].kind == Transfer
    && s.dcs.rows[1].status == status && s.dcs.rows[1].group == 0
    && s.lines == Table(map[1 := CrateLine(key)], 2) && s.serials == Table(map[1 := Serial(1, 1, text)], 2)
    && s.transfers.rows == map[1 := TransferDc(1, 1, 0)] && s.dests.rows == map[1 := Destination(1, 7, false, 0)]
    && s.plans.rows == map[1 := Plan(1, key, 1)] && s.groups == Table(map[], 1)
  }

  lemma CrateRows(key: SourceKey, text: string)
    ensures var p := CratePlan(key, text);
      && PricedItems(p.items, 1) == [Item(PricedLine(key, 1, 0.0, 0.0, 1), [text])]
      && DestinationRows(p.shipTos, 1, 1) == [Destination(1, 7, false, 0)]
      && PlanRows(p, 1, 1) == [Plan(1, key, 1)]
  {
    var p := CratePlan(key, text);
    assert PricedItems(p.items, 0) == [] && DestinationRows(p.shipTos, 1, 0) == [] && DestinationRows(p.shipTos, 0, 0) == [];
    assert PlanRows(p, 1, 0) == [] && ColumnPlans(p.items, 1, 0, 0) == [];
    assert ColumnPlans(p.items, 1, 0, 1) == [Plan(1, key, 1)];
  }

  lemma OneRow<R>(t: Table<R>, row: R)
    requires t == Table(map[], 1)
    ensures t.InsertAll([row]) == Table(map[1 := row], 2)
  {
    InsertAllNone(t);
    InsertAllOne(t, [], row);
    assert [] + [row] == [row];
  }

  lemma CrateCreated(starts: Starts, key: SourceKey, text: string)
    ensures CrateTables(CrateTransfer(starts, key, text), Draft, key, text)
  {
    hide Table.InsertAll, PricedItems, DestinationRows, PlanRows;
    CrateRows(key, text);
    var items := [Item(PricedLine(key, 1, 0.0, 0.0, 1), [text])];
    assert ItemLines(items, 1) == [CrateLine(key)];
    assert SerialRows(items, 1, 1, 0) == [] && LineSerials([text], 1, 1) == [Serial(1, 1, text)];
    assert SerialRows(items, 1, 1, 1) == [Serial(1, 1, text)];
    var e := Empty(starts);
    OneRow(e.lines, CrateLine(key));
    OneRow(e.serials, Serial(1, 1, text));
    OneRow(e.dests, Destination(1, 7, false, 0));
    OneRow(e.plans, Plan(1, key, 1));
  }

  lemma CrateSubmitted(key: SourceKey, text: string)
    requires CleanText(text)
    ensures Submitted(CreateTransfer(CratePlan(key, text))) && CleanSplit(CrateSplit(text))
  {
    var it := CratePlan(key, text).items[0];
    assert QuantityTo(it, 0) == 0 && QuantityTo(it, 1) == 1;
  }

  lemma CrateTexts(s: Store, status: Status, key: SourceKey, text: string)
    requires CrateTables(s, status, key, text)
    ensures LinesOf(s.lines, 1) == {1} && LineTexts(s.serials, 1) == [text]
  {
    assert SerialsOf(s.serials, 1) == {1};
    AscendingOne(1);
  }

  lemma CrateIssuable(s: Store, key: SourceKey, text: string)
    requires CrateTables(s, Draft, key, text) && CleanSerials(s.serials)
    ensures var a := Step(s, IssueChallan(1, map[key := Required])); CrateTables(a, Issued, key, text) && a.splits == s.splits
  {
    CrateTexts(s, Draft, key, text);
    assert LineAcceptable(s, map[key := Required], 1);
    SerialCheckExactly(s, map[key := Required], 1, 1);
  }

  lemma CrateAccepted(s: Store, key: SourceKey, text: string)
    requires CrateTables(s, Issued, key, text)
    ensures SplitCheck(s, CrateSplit(text)) == None && PickedLines(s, CrateSplit(text)) == [1]
    ensures AllotmentOk(s, CrateSplit(text), map[key := Required], 1)
  {
    var p := CrateSplit(text);
    assert MetadataOf(s.transfers, 1) == {1};
    assert FirstProblem(s.dests, 1, p.dests, 0) == None;
    assert PlansFor(s.plans, 1, key) == {1};
    assert PlannedTotal(s.plans, p.dests, key, 0) == 0 && PlannedTotal(s.plans, p.dests, key, 1) == 1;
    CrateTexts(s, Issued, key, text);
    AscendingOne(1);
    assert Picked(s.lines, s.plans, [1], p.dests, 0) == [];
  }

  lemma CrateSound(starts: Starts, key: SourceKey, text: string)
    requires CleanText(text)
    ensures Inv(CrateIssued(starts, key, text)) && CrateTables(CrateIssued(starts, key, text), Issued, key, text)
  {
    hide Inv, Step, CrateTables, CratePlan;
    EmptyInv(starts);
    CrateSubmitted(key, text);
    StepKeepsInv(Empty(starts), CreateTransfer(CratePlan(key, text)));
    StepKeepsInv(CrateTransfer(starts, key, text), IssueChallan(1, map[key := Required]));
    CrateCreated(starts, key, text);
    InvIsClean(CrateTransfer(starts, key, text));
    CrateIssuable(CrateTransfer(starts, key, text), key, text);
  }

  lemma InvIsClean(s: Store)
    requires Inv(s)
    ensures CleanSerials(s.serials)
  {
  }

  lemma CrateItems(s: Store, status: Status, key: SourceKey, text: string)
    requires CrateTables(s, status, key, text) && SplitCheck(s, CrateSplit(text)) == None && PickedLines(s, CrateSplit(text)) == [1]
    ensures var items := ChildShipment(s, CrateSplit(text)).items; |items| == 1 && items[0].serials == [text]
    ensures s.lines.Valid() && s.dcs.next == s.lines.next == 2 && 1 in s.lines.rows && s.lines.rows[1].dc == 1
  {
    hide SplitCheck, ChildShipment, PickedLines;
    ChildParts(s, CrateSplit(text));
  }

  lemma PlacedFirst(lines: Table<Line>, items: seq<Item>, x: Id, first: Id)
    requires LinesPlaced(lines, items, x, first) && |items| > 0
    ensures first in lines.rows && lines.rows[first].dc == x
  {
    var row := items[0].line.(dc := x);
    assert lines.rows[first + 0] == row;
  }

  lemma CarriedFirst(u: Table<Serial>, items: seq<Item>, first: Id)
    requires |items| > 0 && LinesCarry(u, items, first, |items|)
    ensures LineTexts(u, first) == items[0].serials
  {
    hide LineTexts;
    assert LineTexts(u, first + 0) == items[0].serials;
  }

  lemma CrateLines(s: Store, a: Store, key: SourceKey, text: string)
    requires CrateTables(s, Issued, key, text) && SplitCheck(s, CrateSplit(text)) == None && a == AfterSplit(s, CrateSplit(text))
    requires Linked(s) && PickedLines(s, CrateSplit(text)) == [1]
    ensures 1 in a.lines.rows && a.lines.rows[1].dc == 1 && 2 in a.lines.rows && a.lines.rows[2].dc == 2
    ensures LineTexts(a.serials, 1) == LineTexts(a.serials, 2) == [text]
  {
    hide CrateTables, Linked, SplitCheck, AfterSplit, ChildShipment, PickedLines, LineTexts, Table.InsertAll, LinesOf,
      Before, LinesPlaced, LinesCarry, ItemLines, SerialRows, OfficialLines, CrateSplit;
    var sh := ChildShipment(s, CrateSplit(text));
    CrateItems(s, Issued, key, text);
    CrateTexts(s, Issued, key, text);
    ChildRows(s, CrateSplit(text));
    NewLinesFresh(s);
    ItemsPlaced(s, a, sh);
    PlacedFirst(a.lines, sh.items, 2, 2);
    CarriedFirst(a.serials, sh.items, 2);
    EarlierLines(s.serials, sh.items, sh.project, 2, |sh.items|, 1);
    Inserted(s.lines, ItemLines(sh.items, 2) + OfficialLines(sh.consignments, 3, |sh.consignments|));
  }

  /** Parent and child record the same serial, tracking requires serials, and the child group can be issued. */
  lemma SerialReused(starts: Starts, key: SourceKey, text: string)
    requires CleanText(text)
    ensures var s := CrateChild(starts, key, text);
      && GroupIssueCheck(s, map[key := Required], 1) == None
      && 1 in s.lines.rows && s.lines.rows[1].dc == 1 && 2 in s.lines.rows && s.lines.rows[2].dc == 2
      && LineTexts(s.serials, 1) == LineTexts(s.serials, 2) == [text]
  {
    var s, p := CrateIssued(starts, key, text), CrateSplit(text);
    hide Inv, Linked, SplitCheck, AfterSplit, PickedLines, AllotmentOk, GroupIssueCheck, LineTexts, CleanSplit, CrateIssued;
    CrateSound(starts, key, text);
    CrateSubmitted(key, text);
    CrateAccepted(s, key, text);
    ChildIssuableExactly(s, p, map[key := Required]);
    LinksOf(s);
    CrateLines(s, AfterSplit(s, p), key, text);
  }
}
