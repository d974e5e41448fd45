/** What the tables hold once a shipment, a transfer DC or a split has been created, row by row. */
module CreatedRows {
  import opened Tables
  import opened Numbering
  import opened Records
  import opened Shipments
  import opened CreationSpec
  import opened SplitSpec
  import opened IssueSpec
  import opened Invariants
  import opened ShipmentFacts
  import opened SplitFacts
  import opened CreationFacts
  import opened CreationAccounts
  import opened SplitBalance
  import opened PlacedLines

  /** DC x is a new draft, numbered under its own type and year. */
  ghost predicate NewChallan(dcs: Table<Challan>, x: Id, project: Id, kind: Kind, kindNo: SeqType, group: Id, shipTo: Id, date: Date) {
    && x in dcs.rows && dcs.rows[x].project == project && dcs.rows[x].kind == kind && dcs.rows[x].status == Draft
    && dcs.rows[x].group == group && dcs.rows[x].shipTo == shipTo && dcs.rows[x].date == date
    && dcs.rows[x].number.key == SeqKey(project, kindNo, FinancialYear(date))
  }

  /** Line l of DC x prices a quantity of an item, and carries serials. */
  ghost predicate PricedRow(lines: Table<Line>, serials: Table<Serial>, l: Id, x: Id, key: SourceKey, quantity: int,
                            rate: real, taxPercent: real, order: nat, texts: seq<string>) {
    && l in lines.rows && LineTexts(serials, l) == texts
    && var taxable := rate * quantity as real; var tax := taxable * taxPercent / 100.0;
       lines.rows[l] == Line(x, key, quantity, rate, taxPercent, taxable, tax, taxable + tax, order)
  }

  /** Line l of DC x states a quantity of an item, without prices. */
  ghost predicate PlainRow(lines: Table<Line>, l: Id, x: Id, key: SourceKey, quantity: int, order: nat) {
    l in lines.rows && lines.rows[l] == Line(x, key, quantity, 0.0, 0.0, 0.0, 0.0, 0.0, order)
  }

  // ---- The lines of one DC ----

  /** DC y has the lines of content, and no other. */
  ghost predicate OnDc(lines: Table<Line>, y: Id, content: seq<Line>) {
    && (forall q :: q in content ==> exists l :: l in LinesOf(lines, y) && lines.rows[l] == q.(dc := y))
    && (forall l :: l in LinesOf(lines, y) ==> exists q :: q in content && lines.rows[l] == q.(dc := y))
  }

  lemma {:induction false} OfficialLinesOn(cs: seq<Consignment>, first: Id, n: nat, i: nat)
    requires i < n <= |cs|
    ensures forall q :: q in cs[i].lines ==> q.(dc := first + i) in OfficialLines(cs, first, n)
    ensures forall r :: r in OfficialLines(cs, first, n) && r.dc == first + i ==> exists q :: q in cs[i].lines && r == q.(dc := first + i)
  {
    if i < n - 1 {
      OfficialLinesOn(cs, first, n - 1, i);
    } else {
      OfficialLinesAddressed(cs, first, n - 1);
      AddressedLines(cs[i].lines, first + i);
    }
  }

  lemma AddressedLines(lines: seq<Line>, y: Id)
    ensures forall q :: q in lines ==> q.(dc := y) in Addressed(lines, y)
    ensures forall r :: r in Addressed(lines, y) ==> exists q :: q in lines && r == q.(dc := y)
  {
    forall q | q in lines
      ensures q.(dc := y) in Addressed(lines, y)
    {
      var k :| 0 <= k < |lines| && lines[k] == q;
      assert Addressed(lines, y)[k] == q.(dc := y);
    }
    forall r | r in Addressed(lines, y)
      ensures exists q :: q in lines && r == q.(dc := y)
    {
      var k :| 0 <= k < |lines| && Addressed(lines, y)[k] == r;
      assert lines[k] in lines;
    }
  }

  /** The new lines of a DC are the inserted rows that name it. */
  lemma InsertedOn(lines: Table<Line>, rows: seq<Line>, y: Id)
    requires lines.Valid() && forall l :: l in lines.rows ==> lines.rows[l].dc != y
    ensures var u := lines.InsertAll(rows);
      && (forall r :: r in rows && r.dc == y ==> exists l :: l in LinesOf(u, y) && u.rows[l] == r)
      && (forall l :: l in LinesOf(u, y) ==> u.rows[l] in rows)
  {
    hide Table.InsertAll;
    Inserted(lines, rows);
    var u := lines.InsertAll(rows);
    forall r | r in rows && r.dc == y
      ensures exists l :: l in LinesOf(u, y) && u.rows[l] == r
    {
      var k :| 0 <= k < |rows| && rows[k] == r;
      InsertAllAt(lines, rows, k);
      assert lines.next + k in LinesOf(u, y);
    }
  }

  lemma OfficialPlaced(lines: Table<Line>, items: seq<Item>, cs: seq<Consignment>, x: Id, i: nat)
    requires lines.Valid() && i < |cs| && forall l :: l in lines.rows ==> lines.rows[l].dc < x
    ensures OnDc(lines.InsertAll(ItemLines(items, x) + OfficialLines(cs, x + 1, |cs|)), x + 1 + i, cs[i].lines)
  {
    hide Table.InsertAll, OfficialLines, ItemLines;
    var officials := OfficialLines(cs, x + 1, |cs|);
    OfficialLinesOn(cs, x + 1, |cs|, i);
    InsertedOn(lines, ItemLines(items, x) + officials, x + 1 + i);
    OfficialRowsOnly(items, officials, x, x + 1 + i);
  }

  lemma OfficialRowsOnly(items: seq<Item>, officials: seq<Line>, x: Id, y: Id)
    requires y != x
    ensures forall r :: r in ItemLines(items, x) + officials && r.dc == y <==> r in officials && r.dc == y
  {
    assert forall r :: r in ItemLines(items, x) + officials <==> r in ItemLines(items, x) || r in officials;
    assert forall r :: r in ItemLines(items, x) ==> r.dc == x;
  }

  /** The serials that are in u but not in t belong to a project. */
  ghost predicate NewSerialsOf(t: Table<Serial>, u: Table<Serial>, project: Id) {
    forall x :: x in u.rows && x !in t.rows ==> u.rows[x].project == project
  }

  lemma {:induction false} SerialRowsOf(items: seq<Item>, project: Id, first: Id, n: nat)
    requires n <= |items|
    ensures forall r :: r in SerialRows(items, project, first, n) ==> r.project == project
  {
    if n > 0 {
      SerialRowsOf(items, project, first, n - 1);
    }
  }

  lemma SerialsInserted(t: Table<Serial>, items: seq<Item>, project: Id, first: Id)
    requires t.Valid()
    ensures NewSerialsOf(t, t.InsertAll(SerialRows(items, project, first, |items|)), project)
  {
    hide Table.InsertAll, SerialRows;
    SerialRowsOf(items, project, first, |items|);
    InsertAllExtends(t, SerialRows(items, project, first, |items|));
  }

  // ---- DCs ----

  lemma ShipmentDcs(s: Store, sh: Shipment)
    requires s.dcs.Valid()
    ensures var dcs, x, g := AddShipment(s, sh).dcs, s.dcs.next, s.groups.next;
      && dcs.next == x + 1 + |sh.consignments| && NewChallan(dcs, x, sh.project, Transit, Tdc, g, sh.shipTo, sh.date)
      && forall i :: 0 <= i < |sh.consignments| ==>
           NewChallan(dcs, x + 1 + i, sh.project, Official, Odc, g, sh.consignments[i].shipTo, sh.date)
  {
    hide Table.InsertAll;
    var rows := ShipmentChallans(s, sh);
    InsertAllAt(s.dcs, rows, 0);
    forall i | 0 <= i < |sh.consignments|
      ensures NewChallan(AddShipment(s, sh).dcs, s.dcs.next + 1 + i, sh.project, Official, Odc, s.groups.next, sh.consignments[i].shipTo, sh.date)
    {
      InsertAllAt(s.dcs, rows, i + 1);
    }
  }

  // ---- Splits ----

  /** What the selected destinations are to receive of the item of parent line l. */
  function Selected(s: Store, p: SplitParams, l: Id): int
    requires l in s.lines.rows
  {
    PlannedTotal(s.plans, p.dests, s.lines.rows[l].key, |p.dests|)
  }

  /** Line k of DC x carries what was selected of parent line l, at its rate and tax, with the allotted serials. */
  ghost predicate CarriesSelected(s: Store, a: Store, p: SplitParams, x: Id, l: Id, k: Id)
    requires l in s.lines.rows
  {
    var row := s.lines.rows[l];
    PricedRow(a.lines, a.serials, k, x, row.key, Selected(s, p, l), row.rate, row.taxPercent, row.order,
              if l in p.allotted then p.allotted[l] else [])
  }

  /** Line k of DC y states what is planned for destination d of the item of parent line l. */
  ghost predicate StatesPlanned(s: Store, a: Store, y: Id, d: Id, l: Id, k: Id)
    requires l in s.lines.rows
  {
    var row := s.lines.rows[l];
    PlainRow(a.lines, k, y, row.key, Planned(s.plans, d, row.key), row.order)
  }

  ghost predicate TransitOfSplit(s: Store, a: Store, p: SplitParams, x: Id) {
    && (forall l :: l in LinesOf(s.lines, p.dc) && Selected(s, p, l) > 0 ==>
          exists k :: k in LinesOf(a.lines, x) && CarriesSelected(s, a, p, x, l, k))
    && (forall k :: k in LinesOf(a.lines, x) ==>
          exists l :: l in LinesOf(s.lines, p.dc) && Selected(s, p, l) > 0 && CarriesSelected(s, a, p, x, l, k))
  }

  ghost predicate OfficialOfSplit(s: Store, a: Store, p: SplitParams, y: Id, d: Id) {
    && (forall l :: l in LinesOf(s.lines, p.dc) && Selected(s, p, l) > 0 && Planned(s.plans, d, s.lines.rows[l].key) != 0 ==>
          exists k :: k in LinesOf(a.lines, y) && StatesPlanned(s, a, y, d, l, k))
    && (forall k :: k in LinesOf(a.lines, y) ==>
          exists l :: l in LinesOf(s.lines, p.dc) && Selected(s, p, l) > 0 && Planned(s.plans, d, s.lines.rows[l].key) != 0
            && StatesPlanned(s, a, y, d, l, k))
  }

  /** The child group of a split: its transit DC goes to the first selected destination and carries what was selected,
      each official DC goes to its own destination and states what is planned for it. */
  ghost predicate SplitRows(s: Store, a: Store, p: SplitParams)
    requires p.dc in s.dcs.rows
  {
    var parent, x, g := s.dcs.rows[p.dc], s.dcs.next, s.groups.next;
    && p.dests != [] && (forall d :: d in p.dests ==> d in s.dests.rows)
    && g in a.groups.rows && a.groups.rows[g].project == parent.project
    && a.groups.rows[g].locations == |p.dests| && a.groups.rows[g].status == Draft
    && a.dcs.next == x + 1 + |p.dests|
    && NewChallan(a.dcs, x, parent.project, Transit, Tdc, g, s.dests.rows[p.dests[0]].shipTo, parent.date)
    && TransitOfSplit(s, a, p, x) && NewSerialsOf(s.serials, a.serials, parent.project)
    && forall i :: 0 <= i < |p.dests| ==>
         && NewChallan(a.dcs, x + 1 + i, parent.project, Official, Odc, g, s.dests.rows[p.dests[i]].shipTo, parent.date)
         && OfficialOfSplit(s, a, p, x + 1 + i, p.dests[i])
  }

  lemma {:induction false} PickedExactly(s: Store, p: SplitParams, ids: seq<Id>, n: nat)
    requires n <= |ids| && forall l :: l in ids ==> l in s.lines.rows
    ensures forall l :: l in Picked(s.lines, s.plans, ids, p.dests, n) <==> l in ids[..n] && l in s.lines.rows && Selected(s, p, l) > 0
  {
    hide PlannedTotal;
    if n > 0 {
      PickedExactly(s, p, ids, n - 1);
      assert ids[..n] == ids[..n - 1] + [ids[n - 1]];
    }
  }

  lemma PickedLinesExactly(s: Store, p: SplitParams)
    ensures forall l :: l in PickedLines(s, p) <==> l in LinesOf(s.lines, p.dc) && Selected(s, p, l) > 0
  {
    hide Picked, Selected;
    var ids := ParentLines(s, p.dc);
    assert ids[..|ids|] == ids;
    PickedExactly(s, p, ids, |ids|);
  }

  lemma {:induction false} DestinationLinesExactly(s: Store, picked: seq<Id>, d: Id, n: nat)
    requires n <= |picked| && forall l :: l in picked ==> l in s.lines.rows
    ensures forall j :: 0 <= j < n && Planned(s.plans, d, s.lines.rows[picked[j]].key) != 0 ==>
      PlannedLine(s, d, picked[j]) in DestinationLines(s, picked, d, n)
    ensures forall q :: q in DestinationLines(s, picked, d, n) ==>
      exists j :: 0 <= j < n && Planned(s.plans, d, s.lines.rows[picked[j]].key) != 0 && q == PlannedLine(s, d, picked[j])
  {
    hide Planned;
    if n > 0 {
      DestinationLinesExactly(s, picked, d, n - 1);
    }
  }

  function PlannedLine(s: Store, d: Id, l: Id): Line
    requires l in s.lines.rows
  {
    var row := s.lines.rows[l];
    Line(0, row.key, Planned(s.plans, d, row.key), 0.0, 0.0, 0.0, 0.0, 0.0, row.order)
  }

  lemma OfficialLineFor(s: Store, a: Store, picked: seq<Id>, y: Id, d: Id, l: Id) returns (k: Id)
    requires l in picked && (forall i :: i in picked ==> i in s.lines.rows) && Planned(s.plans, d, s.lines.rows[l].key) != 0
    requires OnDc(a.lines, y, DestinationLines(s, picked, d, |picked|))
    ensures k in LinesOf(a.lines, y) && StatesPlanned(s, a, y, d, l, k)
  {
    hide Planned, DestinationLines;
    DestinationLinesExactly(s, picked, d, |picked|);
    var j :| 0 <= j < |picked| && picked[j] == l;
    k :| k in LinesOf(a.lines, y) && a.lines.rows[k] == PlannedLine(s, d, picked[j]).(dc := y);
  }

  lemma OfficialLineSource(s: Store, a: Store, picked: seq<Id>, y: Id, d: Id, k: Id) returns (l: Id)
    requires k in LinesOf(a.lines, y) && forall i :: i in picked ==> i in s.lines.rows
    requires OnDc(a.lines, y, DestinationLines(s, picked, d, |picked|))
    ensures l in picked && Planned(s.plans, d, s.lines.rows[l].key) != 0 && StatesPlanned(s, a, y, d, l, k)
  {
    hide Planned, DestinationLines;
    DestinationLinesExactly(s, picked, d, |picked|);
    var q :| q in DestinationLines(s, picked, d, |picked|) && a.lines.rows[k] == q.(dc := y);
    var j :| 0 <= j < |picked| && Planned(s.plans, d, s.lines.rows[picked[j]].key) != 0 && q == PlannedLine(s, d, picked[j]);
    l := picked[j];
  }

  lemma OfficialFromContent(s: Store, a: Store, p: SplitParams, picked: seq<Id>, y: Id, d: Id)
    requires (forall l :: l in picked <==> l in LinesOf(s.lines, p.dc) && Selected(s, p, l) > 0)
    requires OnDc(a.lines, y, DestinationLines(s, picked, d, |picked|))
    ensures OfficialOfSplit(s, a, p, y, d)
  {
    hide Planned, Selected, DestinationLines, StatesPlanned, OnDc;
    forall l | l in picked && Planned(s.plans, d, s.lines.rows[l].key) != 0
      ensures exists k :: k in LinesOf(a.lines, y) && StatesPlanned(s, a, y, d, l, k)
    {
      var k := OfficialLineFor(s, a, picked, y, d, l);
    }
    forall k | k in LinesOf(a.lines, y)
      ensures exists l :: l in picked && Planned(s.plans, d, s.lines.rows[l].key) != 0 && StatesPlanned(s, a, y, d, l, k)
    {
      var l := OfficialLineSource(s, a, picked, y, d, k);
    }
  }

  lemma TransitLineAt(s: Store, a: Store, p: SplitParams, picked: seq<Id>, x: Id, first: Id, i: nat)
    requires i < |picked| && forall l :: l in picked ==> l in s.lines.rows
    requires LinesPlaced(a.lines, SplitItems(s, p, picked), x, first) && LinesCarry(a.serials, SplitItems(s, p, picked), first, |picked|)
    ensures picked[i] in s.lines.rows && first + i in LinesOf(a.lines, x) && CarriesSelected(s, a, p, x, picked[i], first + i)
  {
    hide PlannedTotal, LineTexts;
    var it := SplitItems(s, p, picked)[i];
    assert it == SplitItem(s, p, picked[i]) && LineTexts(a.serials, first + i) == it.serials;
  }

  lemma PlacedRange(lines: Table<Line>, items: seq<Item>, x: Id, first: Id)
    requires LinesPlaced(lines, items, x, first)
    ensures forall l :: l in LinesOf(lines, x) <==> first <= l < first + |items|
  {
  }

  lemma TransitFromItems(s: Store, a: Store, p: SplitParams, picked: seq<Id>, x: Id, first: Id)
    requires (forall l :: l in picked <==> l in LinesOf(s.lines, p.dc) && Selected(s, p, l) > 0)
    requires LinesPlaced(a.lines, SplitItems(s, p, picked), x, first) && LinesCarry(a.serials, SplitItems(s, p, picked), first, |picked|)
    ensures TransitOfSplit(s, a, p, x)
  {
    hide Selected, LinesCarry, CarriesSelected, SplitItem, LinesPlaced;
    PlacedRange(a.lines, SplitItems(s, p, picked), x, first);
    forall l | l in picked
      ensures exists k :: k in LinesOf(a.lines, x) && CarriesSelected(s, a, p, x, l, k)
    {
      var i :| 0 <= i < |picked| && picked[i] == l;
      TransitLineAt(s, a, p, picked, x, first, i);
    }
    forall k | k in LinesOf(a.lines, x)
      ensures exists l :: l in picked && CarriesSelected(s, a, p, x, l, k)
    {
      TransitLineAt(s, a, p, picked, x, first, k - first);
    }
  }

  lemma SplitDcRows(s: Store, p: SplitParams)
    requires s.dcs.Valid() && SplitCheck(s, p) == None && Splittable(s, p.dc, p.dests, Least(MetadataOf(s.transfers, p.dc)), ChildShipment(s, p))
    ensures ChildShipment(s, p).project == s.dcs.rows[p.dc].project
    ensures var a, parent, x, g := AfterSplit(s, p), s.dcs.rows[p.dc], s.dcs.next, s.groups.next;
      && p.dests != [] && (forall d :: d in p.dests ==> d in s.dests.rows)
      && g in a.groups.rows && a.groups.rows[g].project == parent.project
      && a.groups.rows[g].locations == |p.dests| && a.groups.rows[g].status == Draft
      && a.dcs.next == x + 1 + |p.dests|
      && NewChallan(a.dcs, x, parent.project, Transit, Tdc, g, s.dests.rows[p.dests[0]].shipTo, parent.date)
      && forall i :: 0 <= i < |p.dests| ==>
           NewChallan(a.dcs, x + 1 + i, parent.project, Official, Odc, g, s.dests.rows[p.dests[i]].shipTo, parent.date)
  {
    hide AddShipment, SplitCheck, PickedLines, SplitItems, DestinationLines;
    var sh := ChildShipment(s, p);
    ShipmentDcs(s, sh);
    ChildParts(s, p);
    forall i | 0 <= i < |p.dests|
      ensures p.dests[i] in s.dests.rows
        && NewChallan(AfterSplit(s, p).dcs, s.dcs.next + 1 + i, s.dcs.rows[p.dc].project, Official, Odc, s.groups.next,
                      s.dests.rows[p.dests[i]].shipTo, s.dcs.rows[p.dc].date)
    {
      assert sh.consignments[i].shipTo == s.dests.rows[p.dests[i]].shipTo;
    }
  }

  lemma SplitLineRows(s: Store, p: SplitParams)
    requires Linked(s) && SplitCheck(s, p) == None && forall d :: d in p.dests ==> d in s.dests.rows
    ensures TransitOfSplit(s, AfterSplit(s, p), p, s.dcs.next)
    ensures NewSerialsOf(s.serials, AfterSplit(s, p).serials, ChildShipment(s, p).project)
    ensures forall i :: 0 <= i < |p.dests| ==> OfficialOfSplit(s, AfterSplit(s, p), p, s.dcs.next + 1 + i, p.dests[i])
  {
    hide Linked, SplitCheck, AfterSplit, ChildShipment, PickedLines, SplitItem, DestinationLines, TransitOfSplit, OfficialOfSplit,
      Selected, Before, LinesPlaced, LinesCarry, Table.InsertAll, ItemLines, OfficialLines, SerialRows, OnDc, LinesOf, NewSerialsOf;
    var a, sh, picked, x := AfterSplit(s, p), ChildShipment(s, p), PickedLines(s, p), s.dcs.next;
    ChildParts(s, p);
    ChildRows(s, p);
    NewLinesFresh(s);
    LinesBelow(s);
    PickedLinesExactly(s, p);
    ItemsPlaced(s, a, sh);
    SerialsInserted(s.serials, sh.items, sh.project, s.lines.next);
    TransitFromItems(s, a, p, picked, x, s.lines.next);
    forall i | 0 <= i < |p.dests|
      ensures OfficialOfSplit(s, a, p, x + 1 + i, p.dests[i])
    {
      OfficialPlaced(s.lines, sh.items, sh.consignments, x, i);
      OfficialFromContent(s, a, p, picked, x + 1 + i, p.dests[i]);
    }
  }

  lemma LinesBelow(s: Store)
    requires Linked(s)
    ensures forall l :: l in s.lines.rows ==> s.lines.rows[l].dc < s.dcs.next
  {
  }

  /** After every accepted split. */
  lemma SplitHolds(s: Store, p: SplitParams)
    requires Linked(s) && SplitCheck(s, p) == None
    ensures p.dc in s.dcs.rows && SplitRows(s, AfterSplit(s, p), p)
  {
    hide Linked, SplitCheck, AfterSplit, ChildShipment, TransitOfSplit, OfficialOfSplit, NewChallan, NewSerialsOf;
    CheckedSplit(s, p);
    DcsValid(s);
    SplitDcRows(s, p);
    SplitLineRows(s, p);
  }

  lemma DcsValid(s: Store)
    requires Linked(s)
    ensures s.dcs.Valid()
  {
  }

  // ---- Direct shipments ----

  /** The destinations among the first n that are filled in and receive something, in order. */
  ghost function Receiving(p: CreateParams, n: nat): (at: seq<nat>)
    requires n <= |p.shipTos|
    ensures forall k :: 0 <= k < |at| ==> at[k] < n
  {
    if n == 0 then [] else
      var at := Receiving(p, n - 1);
      if p.shipTos[n - 1] == 0 || !HasQuantity(p.items, n - 1) then at else at + [n - 1]
  }

  ghost predicate Increasing(at: seq<nat>) {
    forall i, j :: 0 <= i < j < |at| ==> at[i] < at[j]
  }

  lemma {:induction false} ReceivingExactly(p: CreateParams, n: nat)
    requires n <= |p.shipTos|
    ensures forall i: nat :: i in Receiving(p, n) <==>
      i < n && p.shipTos[i] != 0 && exists j :: 0 <= j < |p.items| && p.items[j].QuantityAt(i) > 0
    ensures Increasing(Receiving(p, n))
  {
    hide ItemParams.QuantityAt;
    if n > 0 {
      ReceivingExactly(p, n - 1);
      assert HasQuantity(p.items, n - 1) <==> exists j :: 0 <= j < |p.items| && p.items[j].QuantityAt(n - 1) > 0;
    }
  }

  /** The priced lines of DC x: one for each item with a total, with its serials. */
  ghost predicate ItemRows(a: Store, x: Id, items: seq<ItemParams>) {
    && (forall j :: 0 <= j < |items| && items[j].total != 0 ==> exists l :: l in LinesOf(a.lines, x) && ItemRow(a, l, x, items[j], j + 1))
    && (forall l :: l in LinesOf(a.lines, x) ==> exists j :: 0 <= j < |items| && items[j].total != 0 && ItemRow(a, l, x, items[j], j + 1))
  }

  ghost predicate ItemRow(a: Store, l: Id, x: Id, it: ItemParams, order: nat) {
    PricedRow(a.lines, a.serials, l, x, it.key, it.total, it.rate, it.taxPercent, order, it.serials)
  }

  /** The lines of DC y: one for each item with a quantity for destination i. */
  ghost predicate ColumnRows(lines: Table<Line>, y: Id, items: seq<ItemParams>, i: nat) {
    && (forall j :: 0 <= j < |items| && items[j].QuantityAt(i) != 0 ==>
          exists l :: l in LinesOf(lines, y) && PlainRow(lines, l, y, items[j].key, items[j].QuantityAt(i), j + 1))
    && (forall l :: l in LinesOf(lines, y) ==>
          exists j :: 0 <= j < |items| && items[j].QuantityAt(i) != 0 && PlainRow(lines, l, y, items[j].key, items[j].QuantityAt(i), j + 1))
  }

  /** A direct shipment: the transit DC goes to the first destination and carries all items, and each destination that
      receives something gets an official DC that states its quantities. */
  ghost predicate DirectRows(s: Store, a: Store, p: CreateParams) {
    var x, g, at := s.dcs.next, s.groups.next, Receiving(p, |p.shipTos|);
    && g in a.groups.rows && a.groups.rows[g] == Group(p.project, |p.shipTos|, Draft, 0, 0)
    && (forall i: nat :: i in at <==>
          i < |p.shipTos| && p.shipTos[i] != 0 && exists j :: 0 <= j < |p.items| && p.items[j].QuantityAt(i) > 0)
    && Increasing(at) && a.dcs.next == x + 1 + |at|
    && p.shipTos != [] && NewChallan(a.dcs, x, p.project, Transit, Tdc, g, p.shipTos[0], p.date)
    && ItemRows(a, x, p.items) && NewSerialsOf(s.serials, a.serials, p.project)
    && forall k :: 0 <= k < |at| ==>
         && NewChallan(a.dcs, x + 1 + k, p.project, Official, Odc, g, p.shipTos[at[k]], p.date)
         && ColumnRows(a.lines, x + 1 + k, p.items, at[k])
  }

  lemma NextConsignment(p: CreateParams, n: nat)
    requires 0 < n <= |p.shipTos|
    ensures if p.shipTos[n - 1] == 0 || !HasQuantity(p.items, n - 1)
      then Consignments(p, n) == Consignments(p, n - 1) && Receiving(p, n) == Receiving(p, n - 1)
      else
        && Consignments(p, n) == Consignments(p, n - 1) + [Consignment(p.shipTos[n - 1], ConsignmentLines(p.items, n - 1, |p.items|))]
        && Receiving(p, n) == Receiving(p, n - 1) + [n - 1]
  {
    hide ConsignmentLines, HasQuantity;
    assert Consignments(p, n - 1) + [] == Consignments(p, n - 1);
  }

  lemma {:induction false} ConsignmentsReceiving(p: CreateParams, n: nat)
    requires n <= |p.shipTos|
    ensures var cs, at := Consignments(p, n), Receiving(p, n);
      |cs| == |at| && forall k :: 0 <= k < |at| ==> cs[k] == Consignment(p.shipTos[at[k]], ConsignmentLines(p.items, at[k], |p.items|))
  {
    if n == 0 {
    } else {
      hide Consignments, Receiving, ConsignmentLines, HasQuantity;
      ConsignmentsReceiving(p, n - 1);
      NextConsignment(p, n);
    }
  }

  lemma {:induction false} ConsignmentLinesExactly(items: seq<ItemParams>, i: nat, n: nat)
    requires n <= |items|
    ensures forall j :: 0 <= j < n && items[j].QuantityAt(i) != 0 ==> ColumnLine(items, i, j) in ConsignmentLines(items, i, n)
    ensures forall q :: q in ConsignmentLines(items, i, n) ==>
      exists j :: 0 <= j < n && items[j].QuantityAt(i) != 0 && q == ColumnLine(items, i, j)
  {
    if n > 0 {
      ConsignmentLinesExactly(items, i, n - 1);
    }
  }

  function ColumnLine(items: seq<ItemParams>, i: nat, j: nat): Line
    requires j < |items|
  {
    Line(0, items[j].key, items[j].QuantityAt(i), 0.0, 0.0, 0.0, 0.0, 0.0, j + 1)
  }

  lemma ColumnFromContent(lines: Table<Line>, y: Id, items: seq<ItemParams>, i: nat)
    requires OnDc(lines, y, ConsignmentLines(items, i, |items|))
    ensures ColumnRows(lines, y, items, i)
  {
    hide ConsignmentLines, ItemParams.QuantityAt;
    ConsignmentLinesExactly(items, i, |items|);
    forall j | 0 <= j < |items| && items[j].QuantityAt(i) != 0
      ensures exists l :: l in LinesOf(lines, y) && PlainRow(lines, l, y, items[j].key, items[j].QuantityAt(i), j + 1)
    {
      var l :| l in LinesOf(lines, y) && lines.rows[l] == ColumnLine(items, i, j).(dc := y);
      assert PlainRow(lines, l, y, items[j].key, items[j].QuantityAt(i), j + 1);
    }
    forall l | l in LinesOf(lines, y)
      ensures exists j :: 0 <= j < |items| && items[j].QuantityAt(i) != 0 && PlainRow(lines, l, y, items[j].key, items[j].QuantityAt(i), j + 1)
    {
      var q :| q in ConsignmentLines(items, i, |items|) && lines.rows[l] == q.(dc := y);
      var j :| 0 <= j < |items| && items[j].QuantityAt(i) != 0 && q == ColumnLine(items, i, j);
      assert PlainRow(lines, l, y, items[j].key, items[j].QuantityAt(i), j + 1);
    }
  }

  lemma PricedAt(a: Store, items: seq<ItemParams>, x: Id, first: Id, k: nat) returns (j: nat)
    requires var priced := PricedItems(items, |items|);
      k < |priced| && LinesPlaced(a.lines, priced, x, first) && LinesCarry(a.serials, priced, first, |priced|)
    ensures j < |items| && items[j].total != 0 && PricedItems(items, |items|)[k].line.order == j + 1
    ensures first + k in LinesOf(a.lines, x) && ItemRow(a, first + k, x, items[j], j + 1)
  {
    hide LineTexts, PricedItems;
    var it := PricedItems(items, |items|)[k];
    PricedItemsExactly(items, |items|);
    j := it.line.order - 1;
    assert LineTexts(a.serials, first + k) == it.serials;
  }

  lemma RowOfItem(a: Store, items: seq<ItemParams>, x: Id, first: Id, j: nat) returns (l: Id)
    requires j < |items| && items[j].total != 0
    requires var priced := PricedItems(items, |items|); LinesPlaced(a.lines, priced, x, first) && LinesCarry(a.serials, priced, first, |priced|)
    ensures l in LinesOf(a.lines, x) && ItemRow(a, l, x, items[j], j + 1)
  {
    hide LinesPlaced, LinesCarry, ItemRow, PricedItems;
    var k := PricedItemFound(items, |items|, j);
    var i := PricedAt(a, items, x, first, k);
    l := first + k;
  }

  lemma ItemsFromPriced(a: Store, items: seq<ItemParams>, x: Id, first: Id)
    requires var priced := PricedItems(items, |items|); LinesPlaced(a.lines, priced, x, first) && LinesCarry(a.serials, priced, first, |priced|)
    ensures ItemRows(a, x, items)
  {
    hide LinesCarry, ItemRow, PricedItems, LinesPlaced, LinesOf;
    PlacedRange(a.lines, PricedItems(items, |items|), x, first);
    forall j | 0 <= j < |items| && items[j].total != 0
      ensures exists l :: l in LinesOf(a.lines, x) && ItemRow(a, l, x, items[j], j + 1)
    {
      var l := RowOfItem(a, items, x, first, j);
    }
    forall l | l in LinesOf(a.lines, x)
      ensures exists j :: 0 <= j < |items| && items[j].total != 0 && ItemRow(a, l, x, items[j], j + 1)
    {
      var j := PricedAt(a, items, x, first, l - first);
    }
  }

  lemma DirectOfficials(s: Store, p: CreateParams)
    requires Linked(s)
    ensures var dcs, at := AfterDirect(s, p).dcs, Receiving(p, |p.shipTos|);
      && dcs.next == s.dcs.next + 1 + |at|
      && forall k :: 0 <= k < |at| ==>
           && NewChallan(dcs, s.dcs.next + 1 + k, p.project, Official, Odc, s.groups.next, p.shipTos[at[k]], p.date)
           && ColumnRows(AfterDirect(s, p).lines, s.dcs.next + 1 + k, p.items, at[k])
  {
    hide Linked, NewChallan, ColumnRows, PricedItems, Consignments, ConsignmentLines, Receiving, OnDc, Table.InsertAll;
    var sh, at := DirectShipment(p), Receiving(p, |p.shipTos|);
    DcsValid(s);
    LinesBelow(s);
    NewLinesFresh(s);
    ShipmentDcs(s, sh);
    ConsignmentsReceiving(p, |p.shipTos|);
    forall k | 0 <= k < |at|
      ensures NewChallan(AfterDirect(s, p).dcs, s.dcs.next + 1 + k, p.project, Official, Odc, s.groups.next, p.shipTos[at[k]], p.date)
        && ColumnRows(AfterDirect(s, p).lines, s.dcs.next + 1 + k, p.items, at[k])
    {
      assert sh.consignments[k] == Consignment(p.shipTos[at[k]], ConsignmentLines(p.items, at[k], |p.items|));
      OfficialPlaced(s.lines, sh.items, sh.consignments, s.dcs.next, k);
      ColumnFromContent(AfterDirect(s, p).lines, s.dcs.next + 1 + k, p.items, at[k]);
    }
  }

  /** After every direct shipment. */
  lemma DirectHolds(s: Store, p: CreateParams)
    requires Linked(s) && p.shipTos != []
    ensures DirectRows(s, AfterDirect(s, p), p)
  {
    hide Linked, ItemRows, ColumnRows, PricedItems, Consignments, Receiving, Increasing, LinesPlaced, LinesCarry,
      Before, Table.InsertAll, NewSerialsOf;
    var sh := DirectShipment(p);
    ReceivingExactly(p, |p.shipTos|);
    DirectOfficials(s, p);
    DcsValid(s);
    LinesBelow(s);
    NewLinesFresh(s);
    ShipmentDcs(s, sh);
    ItemsPlaced(s, AfterDirect(s, p), sh);
    SerialsInserted(s.serials, sh.items, p.project, s.lines.next);
    ItemsFromPriced(AfterDirect(s, p), p.items, s.dcs.next, s.lines.next);
  }

  // ---- Transfer DCs ----

  /** The filled-in destinations among the first n, in order. */
  ghost function FilledIn(shipTos: seq<Id>, n: nat): (at: seq<nat>)
    requires n <= |shipTos|
    ensures forall k :: 0 <= k < |at| ==> at[k] < n
  {
    if n == 0 then []
    else if shipTos[n - 1] == 0 then FilledIn(shipTos, n - 1)
    else FilledIn(shipTos, n - 1) + [n - 1]
  }

  lemma {:induction false} FilledInExactly(shipTos: seq<Id>, n: nat)
    requires n <= |shipTos|
    ensures forall i: nat :: i in FilledIn(shipTos, n) <==> i < n && shipTos[i] != 0
    ensures Increasing(FilledIn(shipTos, n))
  {
    if n > 0 {
      FilledInExactly(shipTos, n - 1);
    }
  }

  /** What is planned for destination d: a row for each item with a quantity in column i. */
  ghost predicate PlanColumn(plans: Table<Plan>, d: Id, items: seq<ItemParams>, i: nat) {
    && (forall j :: 0 <= j < |items| && items[j].QuantityAt(i) != 0 ==>
          exists r :: r in plans.rows && plans.rows[r] == Plan(d, items[j].key, items[j].QuantityAt(i)))
    && (forall r :: r in plans.rows && plans.rows[r].destination == d ==>
          exists j :: 0 <= j < |items| && items[j].QuantityAt(i) != 0 && plans.rows[r] == Plan(d, items[j].key, items[j].QuantityAt(i)))
  }

  /** The k-th filled-in destination has its row, and its column of quantities as its plan. */
  ghost predicate DestinationPlanned(s: Store, a: Store, p: CreateParams, k: nat) {
    var at, d := FilledIn(p.shipTos, |p.shipTos|), s.dests.next + k;
    && k < |at| && d in a.dests.rows && a.dests.rows[d] == Destination(s.transfers.next, p.shipTos[at[k]], false, 0)
    && PlanColumn(a.plans, d, p.items, at[k])
  }

  /** A transfer DC: it goes to the first destination and carries all items; each filled-in destination has a row, and its
      column of quantities as its plan. */
  ghost predicate TransferRows(s: Store, a: Store, p: CreateParams) {
    var x, t, at := s.dcs.next, s.transfers.next, FilledIn(p.shipTos, |p.shipTos|);
    && p.shipTos != [] && NewChallan(a.dcs, x, p.project, Transfer, Stdc, 0, p.shipTos[0], p.date)
    && ItemRows(a, x, p.items) && NewSerialsOf(s.serials, a.serials, p.project)
    && t in a.transfers.rows && a.transfers.rows[t] == TransferDc(x, |p.shipTos|, 0)
    && (forall i: nat :: i in at <==> i < |p.shipTos| && p.shipTos[i] != 0) && Increasing(at)
    && a.dests.next == s.dests.next + |at| && forall k :: 0 <= k < |at| ==> DestinationPlanned(s, a, p, k)
  }

  lemma NextFilledIn(shipTos: seq<Id>, t: Id, n: nat)
    requires 0 < n <= |shipTos|
    ensures if shipTos[n - 1] == 0
      then DestinationRows(shipTos, t, n) == DestinationRows(shipTos, t, n - 1) && FilledIn(shipTos, n) == FilledIn(shipTos, n - 1)
      else
        && DestinationRows(shipTos, t, n) == DestinationRows(shipTos, t, n - 1) + [Destination(t, shipTos[n - 1], false, 0)]
        && FilledIn(shipTos, n) == FilledIn(shipTos, n - 1) + [n - 1]
  {
    assert DestinationRows(shipTos, t, n - 1) + [] == DestinationRows(shipTos, t, n - 1);
  }

  lemma {:induction false} FilledInRows(shipTos: seq<Id>, t: Id, n: nat)
    requires n <= |shipTos|
    ensures var rows, at := DestinationRows(shipTos, t, n), FilledIn(shipTos, n);
      |rows| == |at| && forall k :: 0 <= k < |at| ==> rows[k] == Destination(t, shipTos[at[k]], false, 0)
  {
    if n == 0 {
    } else {
      hide DestinationRows, FilledIn;
      FilledInRows(shipTos, t, n - 1);
      NextFilledIn(shipTos, t, n);
    }
  }

  lemma {:induction false} ColumnPlansExactly(items: seq<ItemParams>, d: Id, i: nat, n: nat)
    requires n <= |items|
    ensures forall j :: 0 <= j < n && items[j].QuantityAt(i) != 0 ==> Plan(d, items[j].key, items[j].QuantityAt(i)) in ColumnPlans(items, d, i, n)
    ensures forall r :: r in ColumnPlans(items, d, i, n) ==>
      exists j :: 0 <= j < n && items[j].QuantityAt(i) != 0 && r == Plan(d, items[j].key, items[j].QuantityAt(i))
  {
    hide ItemParams.QuantityAt;
    if n > 0 {
      ColumnPlansExactly(items, d, i, n - 1);
    }
  }

  lemma NextPlanRows(p: CreateParams, first: Id, n: nat)
    requires 0 < n <= |p.shipTos|
    ensures p.shipTos[n - 1] == 0 ==> PlanRows(p, first, n) == PlanRows(p, first, n - 1) && FilledIn(p.shipTos, n) == FilledIn(p.shipTos, n - 1)
    ensures p.shipTos[n - 1] != 0 ==> var at := FilledIn(p.shipTos, n - 1);
      && PlanRows(p, first, n) == PlanRows(p, first, n - 1) + ColumnPlans(p.items, first + |at|, n - 1, |p.items|)
      && FilledIn(p.shipTos, n) == at + [n - 1]
  {
    hide ColumnPlans, DestinationRows;
    FilledInRows(p.shipTos, 0, n - 1);
    var rows := PlanRows(p, first, n - 1);
    assert rows + [] == rows;
  }

  lemma {:induction false} PlanRowsWithin(p: CreateParams, first: Id, n: nat)
    requires n <= |p.shipTos|
    ensures forall r :: r in PlanRows(p, first, n) ==> first <= r.destination < first + |FilledIn(p.shipTos, n)|
  {
    hide ColumnPlans, FilledIn;
    if n > 0 {
      var at := FilledIn(p.shipTos, n - 1);
      PlanRowsWithin(p, first, n - 1);
      NextPlanRows(p, first, n);
      ColumnPlansFor(p.items, first + |at|, n - 1, |p.items|);
    }
  }

  /** The plan rows of the k-th filled-in destination are those of its column. */
  lemma {:induction false} PlanRowsOf(p: CreateParams, first: Id, n: nat, k: nat, r: Plan)
    requires n <= |p.shipTos| && k < |FilledIn(p.shipTos, n)|
    ensures r in PlanRows(p, first, n) && r.destination == first + k <==>
            r in ColumnPlans(p.items, first + k, FilledIn(p.shipTos, n)[k], |p.items|)
  {
    hide ColumnPlans, FilledIn, PlanRows;
    if n == 0 {
    } else {
      var at := FilledIn(p.shipTos, n - 1);
      NextPlanRows(p, first, n);
      ColumnPlansFor(p.items, first + |at|, n - 1, |p.items|);
      PlanRowsWithin(p, first, n - 1);
      if k < |at| {
        PlanRowsOf(p, first, n - 1, k, r);
      }
    }
  }

  lemma PlansInserted(plans: Table<Plan>, rows: seq<Plan>, d: Id, items: seq<ItemParams>, i: nat)
    requires plans.Valid() && forall r :: r in plans.rows ==> plans.rows[r].destination != d
    requires forall r :: r in rows && r.destination == d <==> r in ColumnPlans(items, d, i, |items|)
    ensures PlanColumn(plans.InsertAll(rows), d, items, i)
  {
    hide Table.InsertAll, ColumnPlans, ItemParams.QuantityAt;
    Inserted(plans, rows);
    ColumnPlansExactly(items, d, i, |items|);
    var u := plans.InsertAll(rows);
    forall j | 0 <= j < |items| && items[j].QuantityAt(i) != 0
      ensures exists r :: r in u.rows && u.rows[r] == Plan(d, items[j].key, items[j].QuantityAt(i))
    {
      var row := Plan(d, items[j].key, items[j].QuantityAt(i));
      assert row in ColumnPlans(items, d, i, |items|);
      var k :| 0 <= k < |rows| && rows[k] == row;
      InsertAllAt(plans, rows, k);
    }
    forall r | r in u.rows && u.rows[r].destination == d
      ensures u.rows[r] in ColumnPlans(items, d, i, |items|)
    {
      assert u.rows[r] == rows[r - plans.next] && rows[r - plans.next] in rows;
    }
  }

  lemma TransferDestination(s: Store, p: CreateParams, k: nat)
    requires Linked(s) && k < |FilledIn(p.shipTos, |p.shipTos|)|
    ensures DestinationPlanned(s, AfterTransfer(s, p), p, k)
  {
    hide Linked, PlanColumn, ColumnPlans, PlanRows, DestinationRows, FilledIn, Table.InsertAll, PricedItems, SerialRows, ItemLines;
    var at, rows := FilledIn(p.shipTos, |p.shipTos|), DestinationRows(p.shipTos, s.transfers.next, |p.shipTos|);
    PlansBelow(s);
    FilledInRows(p.shipTos, s.transfers.next, |p.shipTos|);
    InsertAllAt(s.dests, rows, k);
    assert rows[k] == Destination(s.transfers.next, p.shipTos[at[k]], false, 0);
    forall r: Plan
      ensures r in PlanRows(p, s.dests.next, |p.shipTos|) && r.destination == s.dests.next + k <==>
              r in ColumnPlans(p.items, s.dests.next + k, at[k], |p.items|)
    {
      PlanRowsOf(p, s.dests.next, |p.shipTos|, k, r);
    }
    PlansInserted(s.plans, PlanRows(p, s.dests.next, |p.shipTos|), s.dests.next + k, p.items, at[k]);
  }

  lemma PlansBelow(s: Store)
    requires Linked(s)
    ensures s.dests.Valid() && s.plans.Valid() && forall r :: r in s.plans.rows ==> s.plans.rows[r].destination < s.dests.next
  {
  }

  /** The priced lines of a transfer DC, whether or not its creation went on. */
  lemma TransferItems(s: Store, a: Store, p: CreateParams)
    requires Linked(s)
    requires var items := PricedItems(p.items, |p.items|);
      && a.lines == s.lines.InsertAll(ItemLines(items, s.dcs.next))
      && a.serials == s.serials.InsertAll(SerialRows(items, p.project, s.lines.next, |items|))
    ensures ItemRows(a, s.dcs.next, p.items) && NewSerialsOf(s.serials, a.serials, p.project)
  {
    hide NewSerialsOf, Linked, ItemRows, PricedItems, LinesPlaced, LinesCarry, Before, Table.InsertAll, SerialRows, ItemLines;
    var items := PricedItems(p.items, |p.items|);
    NewLinesFresh(s);
    assert ItemLines(items, s.dcs.next) + [] == ItemLines(items, s.dcs.next);
    TransitLines(s.lines, items, [], s.dcs.next);
    ItemsCarried(s.serials, items, p.project, s.lines.next, |items|);
    ItemsFromPriced(a, p.items, s.dcs.next, s.lines.next);
    SerialsInserted(s.serials, items, p.project, s.lines.next);
  }

  /** After every transfer DC. */
  lemma TransferHolds(s: Store, p: CreateParams)
    requires Linked(s) && p.shipTos != []
    ensures TransferRows(s, AfterTransfer(s, p), p)
  {
    hide Linked, Increasing, ItemRows, NewSerialsOf, DestinationPlanned, PricedItems, FilledIn, DestinationRows,
      PlanRows, SerialRows, ItemLines, Table.InsertAll;
    var a, x, at := AfterTransfer(s, p), s.dcs.next, FilledIn(p.shipTos, |p.shipTos|);
    assert a.dcs.rows[x] == TransferChallan(s, p);
    TransferItems(s, a, p);
    FilledInRows(p.shipTos, s.transfers.next, |p.shipTos|);
    FilledInExactly(p.shipTos, |p.shipTos|);
    forall k | 0 <= k < |at|
      ensures DestinationPlanned(s, a, p, k)
    {
      TransferDestination(s, p, k);
    }
  }

  /** What a creation that failed for want of destinations has left: the DC, blank where the first destination would be. */
  lemma WithoutPlanHolds(s: Store, p: CreateParams)
    requires Linked(s) && p.shipTos == []
    ensures var a := TransferWithoutPlan(s, p);
      && NewChallan(a.dcs, s.dcs.next, p.project, Transfer, Stdc, 0, 0, p.date) && ItemRows(a, s.dcs.next, p.items)
      && a.transfers == s.transfers && a.dests == s.dests && a.plans == s.plans
  {
    hide Linked, ItemRows, PricedItems, SerialRows, ItemLines, Table.InsertAll;
    TransferItems(s, TransferWithoutPlan(s, p), p);
  }
}
