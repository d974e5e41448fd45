/** services/dc_creation.go: the calls that create a direct shipment and a transfer DC. */
module CreationService {
  import opened Tables
  import opened Numbering
  import opened Records
  import opened Shipments
  import opened CreationSpec
  import Invariants
  import Rows = CreatedRows

  // ---- Specification steps the loops follow ----

  lemma {:induction false} SerialRowsPrefix(items: seq<Item>, it: Item, project: Id, first: Id, n: nat)
    requires n <= |items|
    ensures SerialRows(items + [it], project, first, n) == SerialRows(items, project, first, n)
  {
    if n > 0 {
      SerialRowsPrefix(items, it, project, first, n - 1);
    }
  }

  /** One more priced item: its line follows those of the items before it, and so do its serials. */
  lemma OneMoreItem(items: seq<Item>, it: Item, dc: Id, project: Id, first: Id)
    ensures ItemLines(items + [it], dc) == ItemLines(items, dc) + [it.line.(dc := dc)]
    ensures SerialRows(items + [it], project, first, |items| + 1)
            == SerialRows(items, project, first, |items|) + LineSerials(it.serials, project, first + |items|)
  {
    SerialRowsPrefix(items, it, project, first, |items|);
  }

  lemma AdvanceOne(counters: Counters, starts: Starts, key: SeqKey, n: nat)
    ensures var c := Advance(counters, starts, key, n);
      && NextNumber(c, starts, key) == NextNumber(counters, starts, key) + n
      && Advance(c, starts, key, 1) == Advance(counters, starts, key, n + 1)
  {
  }

  /** One more official DC, and its lines. */
  lemma OneMoreOfficial(sh: Shipment, c: Consignment, group: Id, no: nat, first: Id)
    ensures var more := sh.(consignments := sh.consignments + [c]); var n := |sh.consignments|;
      && OfficialChallans(more, group, no) == OfficialChallans(sh, group, no) + [OfficialChallan(more, group, no, n)]
      && OfficialLines(more.consignments, first, n + 1)
         == OfficialLines(sh.consignments, first, n) + Addressed(c.lines, first + n)
  {
    OfficialLinesPrefix(sh.consignments, c, first, |sh.consignments|);
  }

  // ---- Saving ----

  method SaveSerials(db: Database, project: Id, line: Id, texts: seq<string>)
    modifies db`serials
    ensures db.serials == old(db.serials).InsertAll(LineSerials(texts, project, line))
  {
    InsertAllNone(db.serials);
    for i := 0 to |texts|
      invariant db.serials == old(db.serials).InsertAll(LineSerials(texts[..i], project, line))
    {
      assert LineSerials(texts[..i + 1], project, line) == LineSerials(texts[..i], project, line) + [Serial(project, line, texts[i])];
      InsertAllOne(old(db.serials), LineSerials(texts[..i], project, line), Serial(project, line, texts[i]));
      db.serials := db.serials.Insert(Serial(project, line, texts[i]));
    }
    assert texts[..|texts|] == texts;
  }

  /** One priced line, its amounts computed from rate and tax, with its serials. */
  method SaveItem(db: Database, project: Id, dc: Id, key: SourceKey, quantity: int, rate: real, taxPercent: real,
                  order: nat, texts: seq<string>)
    modifies db`lines, db`serials
    ensures db.lines == old(db.lines).Insert(PricedLine(key, quantity, rate, taxPercent, order).(dc := dc))
    ensures db.serials == old(db.serials).InsertAll(LineSerials(texts, project, old(db.lines).next))
  {
    var taxable := rate * quantity as real;
    var tax := taxable * taxPercent / 100.0;
    var line := db.lines.next;
    var row := Line(dc, key, quantity, rate, taxPercent, taxable, tax, taxable + tax, order);
    assert row == PricedLine(key, quantity, rate, taxPercent, order).(dc := dc);
    db.lines := db.lines.Insert(row);
    SaveSerials(db, project, line, texts);
  }

  /** lines and serials are l and t after the lines of items were saved on DC dc, with their serials. */
  ghost predicate ItemsSaved(l: Table<Line>, t: Table<Serial>, items: seq<Item>, dc: Id, project: Id,
                             lines: Table<Line>, serials: Table<Serial>) {
    && lines == l.InsertAll(ItemLines(items, dc))
    && serials == t.InsertAll(SerialRows(items, project, l.next, |items|))
  }

  lemma NextItem(l: Table<Line>, t: Table<Serial>, items: seq<Item>, dc: Id, project: Id,
                 lines: Table<Line>, serials: Table<Serial>, it: Item)
    requires ItemsSaved(l, t, items, dc, project, lines, serials)
    ensures ItemsSaved(l, t, items + [it], dc, project, lines.Insert(it.line.(dc := dc)),
                       serials.InsertAll(LineSerials(it.serials, project, lines.next)))
  {
    OneMoreItem(items, it, dc, project, l.next);
    NextInserted(l, lines, ItemLines(items, dc), it.line.(dc := dc), ItemLines(items + [it], dc));
    NextInsertedAll(t, serials, SerialRows(items, project, l.next, |items|), LineSerials(it.serials, project, lines.next),
                    SerialRows(items + [it], project, l.next, |items| + 1));
  }

  /** lines and serials are l and t after the first n items were saved. */
  ghost predicate PricedUpTo(l: Table<Line>, t: Table<Serial>, items: seq<ItemParams>, n: nat, dc: Id, project: Id,
                             lines: Table<Line>, serials: Table<Serial>) {
    n <= |items| && ItemsSaved(l, t, PricedItems(items, n), dc, project, lines, serials)
  }

  lemma PricedNext(l: Table<Line>, t: Table<Serial>, items: seq<ItemParams>, n: nat, dc: Id, project: Id,
                   lines: Table<Line>, serials: Table<Serial>)
    requires n < |items| && PricedUpTo(l, t, items, n, dc, project, lines, serials)
    ensures var item := items[n];
      if item.total == 0 then PricedUpTo(l, t, items, n + 1, dc, project, lines, serials)
      else PricedUpTo(l, t, items, n + 1, dc, project,
             lines.Insert(PricedLine(item.key, item.total, item.rate, item.taxPercent, n + 1).(dc := dc)),
             serials.InsertAll(LineSerials(item.serials, project, lines.next)))
  {
    hide ItemsSaved;
    var item, priced := items[n], PricedItems(items, n);
    if item.total == 0 {
      assert PricedItems(items, n + 1) == priced + [];
      assert priced + [] == priced;
    } else {
      var it := Item(PricedLine(item.key, item.total, item.rate, item.taxPercent, n + 1), item.serials);
      assert PricedItems(items, n + 1) == priced + [it];
      NextItem(l, t, priced, dc, project, lines, serials, it);
    }
  }

  lemma PricedStart(l: Table<Line>, t: Table<Serial>, items: seq<ItemParams>, dc: Id, project: Id)
    ensures PricedUpTo(l, t, items, 0, dc, project, l, t)
  {
  }

  /** The priced lines of a DC, with their serials; items of total quantity 0 are skipped. */
  method SavePricedItems(db: Database, project: Id, dc: Id, items: seq<ItemParams>)
    modifies db`lines, db`serials
    ensures ItemsSaved(old(db.lines), old(db.serials), PricedItems(items, |items|), dc, project, db.lines, db.serials)
  {
    hide ItemsSaved, PricedItems;
    ghost var l, t := db.lines, db.serials;
    PricedStart(l, t, items, dc, project);
    for i := 0 to |items|
      invariant PricedUpTo(l, t, items, i, dc, project, db.lines, db.serials)
    {
      var item := items[i];
      PricedNext(l, t, items, i, dc, project, db.lines, db.serials);
      if item.total != 0 {
        SaveItem(db, project, dc, item.key, item.total, item.rate, item.taxPercent, i + 1, item.serials);
      }
    }
  }

  /** The unpriced lines of the official DC for destination i. */
  method SaveColumnLines(db: Database, dc: Id, items: seq<ItemParams>, i: nat)
    modifies db`lines
    ensures db.lines == old(db.lines).InsertAll(Addressed(ConsignmentLines(items, i, |items|), dc))
  {
    ghost var rows: seq<Line>, saved: seq<Line> := [], [];
    for j := 0 to |items|
      invariant rows == ConsignmentLines(items, i, j) && saved == Addressed(rows, dc)
      invariant db.lines == old(db.lines).InsertAll(saved)
    {
      if i < |items[j].quantities| && items[j].quantities[i] != 0 {
        var line := PlainLine(items[j].key, items[j].quantities[i], j + 1);
        NextInserted(old(db.lines), db.lines, saved, line.(dc := dc), saved + [line.(dc := dc)]);
        db.lines := db.lines.Insert(line.(dc := dc));
        rows, saved := rows + [line], saved + [line.(dc := dc)];
      }
    }
  }

  method ReceivesSomething(items: seq<ItemParams>, i: nat) returns (has: bool)
    ensures has == HasQuantity(items, i)
  {
    has := false;
    for j := 0 to |items|
      invariant !has
      invariant forall k :: 0 <= k < j ==> items[k].QuantityAt(i) <= 0
    {
      if i < |items[j].quantities| && items[j].quantities[i] > 0 {
        has := true;
        break;
      }
    }
  }

  /** The official DC for destination i. */
  method SaveOfficial(db: Database, p: CreateParams, group: Id, i: nat) returns (dc: Id)
    requires i < |p.shipTos|
    modifies db`dcs, db`lines, db`counters
    ensures var key := OfficialKey(p.project, p.date);
      && dc == old(db.dcs).next
      && db.dcs == old(db.dcs).Insert(Challan(p.project, DocNo(key, NextNumber(old(db.counters), db.starts, key)),
                                              Official, Draft, group, p.shipTos[i], p.date))
      && db.lines == old(db.lines).InsertAll(Addressed(ConsignmentLines(p.items, i, |p.items|), dc))
      && db.counters == Advance(old(db.counters), db.starts, key, 1)
  {
    var number := db.NextDocNumber(p.project, Odc, p.date);
    dc := db.dcs.next;
    db.dcs := db.dcs.Insert(Challan(p.project, number, Official, Draft, group, p.shipTos[i], p.date));
    SaveColumnLines(db, dc, p.items, i);
  }

  /** dcs, lines and counters are d, l and c after the official DCs of sh were saved. */
  ghost predicate OfficialsSaved(d: Table<Challan>, l: Table<Line>, c: Counters, starts: Starts, sh: Shipment, group: Id,
                                 dcs: Table<Challan>, lines: Table<Line>, counters: Counters) {
    var key := OfficialKey(sh.project, sh.date);
    && dcs == d.InsertAll(OfficialChallans(sh, group, NextNumber(c, starts, key)))
    && lines == l.InsertAll(OfficialLines(sh.consignments, d.next, |sh.consignments|))
    && counters == Advance(c, starts, key, |sh.consignments|)
  }

  lemma NoOfficials(d: Table<Challan>, l: Table<Line>, c: Counters, starts: Starts, sh: Shipment, group: Id)
    requires sh.consignments == []
    ensures OfficialsSaved(d, l, c, starts, sh, group, d, l, c)
  {
    assert OfficialChallans(sh, group, NextNumber(c, starts, OfficialKey(sh.project, sh.date))) == [];
  }

  lemma NextOfficial(d: Table<Challan>, l: Table<Line>, c: Counters, starts: Starts, sh: Shipment, group: Id,
                     dcs: Table<Challan>, lines: Table<Line>, counters: Counters, cs: Consignment)
    requires OfficialsSaved(d, l, c, starts, sh, group, dcs, lines, counters)
    ensures var key := OfficialKey(sh.project, sh.date);
      && dcs.next == d.next + |sh.consignments|
      && OfficialsSaved(d, l, c, starts, sh.(consignments := sh.consignments + [cs]), group,
           dcs.Insert(Challan(sh.project, DocNo(key, NextNumber(counters, starts, key)), Official, Draft, group, cs.shipTo, sh.date)),
           lines.InsertAll(Addressed(cs.lines, dcs.next)), Advance(counters, starts, key, 1))
  {
    var key, n := OfficialKey(sh.project, sh.date), |sh.consignments|;
    var no, more := NextNumber(c, starts, key), sh.(consignments := sh.consignments + [cs]);
    OneMoreOfficial(sh, cs, group, no, d.next);
    AdvanceOne(c, starts, key, n);
    NextInserted(d, dcs, OfficialChallans(sh, group, no), OfficialChallan(more, group, no, n), OfficialChallans(more, group, no));
    NextInsertedAll(l, lines, OfficialLines(sh.consignments, d.next, n), Addressed(cs.lines, dcs.next),
                    OfficialLines(more.consignments, d.next, n + 1));
  }

  /** The official DCs for the first i destinations were saved under the given ids. */
  ghost predicate OfficialsUpTo(d: Table<Challan>, l: Table<Line>, c: Counters, starts: Starts, p: CreateParams, group: Id, i: nat,
                                dcs: Table<Challan>, lines: Table<Line>, counters: Counters, ids: seq<Id>) {
    && i <= |p.shipTos|
    && OfficialsSaved(d, l, c, starts, DirectShipment(p).(consignments := Consignments(p, i)), group, dcs, lines, counters)
    && ids == IdsFrom(d.next, |Consignments(p, i)|)
  }

  lemma OfficialsStart(d: Table<Challan>, l: Table<Line>, c: Counters, starts: Starts, p: CreateParams, group: Id)
    ensures OfficialsUpTo(d, l, c, starts, p, group, 0, d, l, c, [])
  {
    NoOfficials(d, l, c, starts, DirectShipment(p).(consignments := []), group);
  }

  lemma OfficialsNext(d: Table<Challan>, l: Table<Line>, c: Counters, starts: Starts, p: CreateParams, group: Id, i: nat,
                      dcs: Table<Challan>, lines: Table<Line>, counters: Counters, ids: seq<Id>)
    requires i < |p.shipTos| && p.shipTos[i] != 0 && HasQuantity(p.items, i)
    requires OfficialsUpTo(d, l, c, starts, p, group, i, dcs, lines, counters, ids)
    ensures var key := OfficialKey(p.project, p.date);
      OfficialsUpTo(d, l, c, starts, p, group, i + 1,
        dcs.Insert(Challan(p.project, DocNo(key, NextNumber(counters, starts, key)), Official, Draft, group, p.shipTos[i], p.date)),
        lines.InsertAll(Addressed(ConsignmentLines(p.items, i, |p.items|), dcs.next)), Advance(counters, starts, key, 1), ids + [dcs.next])
  {
    hide OfficialsSaved, ConsignmentLines, PricedItems, IdsFrom;
    var cs, one := Consignments(p, i), Consignment(p.shipTos[i], ConsignmentLines(p.items, i, |p.items|));
    assert Consignments(p, i + 1) == cs + [one];
    NextOfficial(d, l, c, starts, DirectShipment(p).(consignments := cs), group, dcs, lines, counters, one);
    NextId(d.next, |cs|);
  }

  lemma OfficialsSkip(d: Table<Challan>, l: Table<Line>, c: Counters, starts: Starts, p: CreateParams, group: Id, i: nat,
                      dcs: Table<Challan>, lines: Table<Line>, counters: Counters, ids: seq<Id>)
    requires i < |p.shipTos| && (p.shipTos[i] == 0 || !HasQuantity(p.items, i))
    requires OfficialsUpTo(d, l, c, starts, p, group, i, dcs, lines, counters, ids)
    ensures OfficialsUpTo(d, l, c, starts, p, group, i + 1, dcs, lines, counters, ids)
  {
    assert Consignments(p, i + 1) == Consignments(p, i) + [];
    assert Consignments(p, i + 1) == Consignments(p, i);
  }

  method SaveNextOfficial(db: Database, p: CreateParams, group: Id, i: nat, ids: seq<Id>,
                          ghost d: Table<Challan>, ghost l: Table<Line>, ghost c: Counters) returns (more: seq<Id>)
    requires i < |p.shipTos| && OfficialsUpTo(d, l, c, db.starts, p, group, i, db.dcs, db.lines, db.counters, ids)
    modifies db`dcs, db`lines, db`counters
    ensures OfficialsUpTo(d, l, c, db.starts, p, group, i + 1, db.dcs, db.lines, db.counters, more)
  {
    var has := ReceivesSomething(p.items, i);
    if p.shipTos[i] != 0 && has {
      OfficialsNext(d, l, c, db.starts, p, group, i, db.dcs, db.lines, db.counters, ids);
      var dc := SaveOfficial(db, p, group, i);
      more := ids + [dc];
    } else {
      OfficialsSkip(d, l, c, db.starts, p, group, i, db.dcs, db.lines, db.counters, ids);
      more := ids;
    }
  }

  /** One official DC for each destination that receives something. */
  method SaveOfficials(db: Database, p: CreateParams, group: Id) returns (ids: seq<Id>)
    modifies db`dcs, db`lines, db`counters
    ensures OfficialsSaved(old(db.dcs), old(db.lines), old(db.counters), db.starts, DirectShipment(p), group, db.dcs, db.lines, db.counters)
    ensures ids == IdsFrom(old(db.dcs).next, |DirectShipment(p).consignments|)
  {
    hide OfficialsSaved, Consignments;
    ids := [];
    ghost var d, l, c := db.dcs, db.lines, db.counters;
    OfficialsStart(d, l, c, db.starts, p, group);
    for i := 0 to |p.shipTos|
      invariant OfficialsUpTo(d, l, c, db.starts, p, group, i, db.dcs, db.lines, db.counters, ids)
    {
      ids := SaveNextOfficial(db, p, group, i, ids, d, l, c);
    }
  }

  // ---- The calls ----

  datatype ShipmentIds = ShipmentIds(group: Id, transit: Id, officials: seq<Id>)

  /** Saving the transit DC first and the official DCs after it is adding the shipment. */
  lemma ShipmentInserted(s: Store, sh: Shipment)
    ensures var a := AddShipment(s, sh); var tkey := TransitKey(sh.project, sh.date); var okey := OfficialKey(sh.project, sh.date);
      var no := NextNumber(s.counters, s.starts, okey);
      && NextNumber(Advance(s.counters, s.starts, tkey, 1), s.starts, okey) == no
      && a.dcs == s.dcs.Insert(TransitChallan(s, sh)).InsertAll(OfficialChallans(sh, s.groups.next, no))
      && a.lines == s.lines.InsertAll(ItemLines(sh.items, s.dcs.next))
                           .InsertAll(OfficialLines(sh.consignments, s.dcs.next + 1, |sh.consignments|))
  {
    var transit, okey := TransitChallan(s, sh), OfficialKey(sh.project, sh.date);
    var officials := OfficialChallans(sh, s.groups.next, NextNumber(s.counters, s.starts, okey));
    InsertAllNone(s.dcs);
    NextInserted(s.dcs, s.dcs, [], transit, [transit]);
    NextInsertedAll(s.dcs, s.dcs.Insert(transit), [transit], officials, ShipmentChallans(s, sh));
    var lines := ItemLines(sh.items, s.dcs.next);
    NextInsertedAll(s.lines, s.lines.InsertAll(lines), lines,
                    OfficialLines(sh.consignments, s.dcs.next + 1, |sh.consignments|), ShipmentLines(s, sh));
  }

  /** The tables once the transit DC of sh is saved for the next group. */
  ghost predicate TransitSaved(s: Store, sh: Shipment, dcs: Table<Challan>, lines: Table<Line>, serials: Table<Serial>, counters: Counters) {
    && dcs == s.dcs.Insert(TransitChallan(s, sh))
    && lines == s.lines.InsertAll(ItemLines(sh.items, s.dcs.next))
    && serials == s.serials.InsertAll(SerialRows(sh.items, sh.project, s.lines.next, |sh.items|))
    && counters == Advance(s.counters, s.starts, TransitKey(sh.project, sh.date), 1)
  }

  /** The tables once a group, its transit DC and its official DCs are saved. */
  lemma SavedIsAdded(s: Store, a: Store, sh: Shipment, dcs: Table<Challan>, lines: Table<Line>, counters: Counters)
    requires a.groups == s.groups.Insert(Group(sh.project, sh.locations, Draft, sh.transfer, 0))
    requires TransitSaved(s, sh, dcs, lines, a.serials, counters)
    requires OfficialsSaved(dcs, lines, counters, s.starts, sh, s.groups.next, a.dcs, a.lines, a.counters)
    requires a == s.(groups := a.groups, dcs := a.dcs, lines := a.lines, serials := a.serials, counters := a.counters)
    ensures a == AddShipment(s, sh)
  {
    ShipmentInserted(s, sh);
  }

  /** The transit DC with its priced lines and serials. */
  method SaveTransit(db: Database, p: CreateParams, group: Id, ghost s: Store) returns (transit: Id)
    requires p.shipTos != [] && group == s.groups.next
    requires s.(groups := db.groups) == db.Snapshot()
    modifies db`dcs, db`lines, db`serials, db`counters
    ensures TransitSaved(s, DirectShipment(p), db.dcs, db.lines, db.serials, db.counters)
    ensures transit == s.dcs.next && db.dcs.next == transit + 1
  {
    var number := db.NextDocNumber(p.project, Tdc, p.date);
    transit := db.dcs.next;
    db.dcs := db.dcs.Insert(Challan(p.project, number, Transit, Draft, group, p.shipTos[0], p.date));
    SavePricedItems(db, p.project, transit, p.items);
  }

  method SaveDirect(db: Database, p: CreateParams) returns (ids: ShipmentIds)
    requires p.shipTos != []
    modifies db
    ensures db.Snapshot() == AfterDirect(old(db.Snapshot()), p)
    ensures ids == ShipmentIds(old(db.groups).next, old(db.dcs).next, IdsFrom(old(db.dcs).next + 1, |DirectShipment(p).consignments|))
  {
    hide AddShipment, OfficialsSaved, TransitSaved, PricedItems, Consignments;
    ghost var s := db.Snapshot();
    var group := db.groups.next;
    db.groups := db.groups.Insert(Group(p.project, |p.shipTos|, Draft, 0, 0));
    var transit := SaveTransit(db, p, group, s);
    ghost var dcs, lines, counters := db.dcs, db.lines, db.counters;
    var officials := SaveOfficials(db, p, group);
    ids := ShipmentIds(group, transit, officials);
    SavedIsAdded(s, db.Snapshot(), DirectShipment(p), dcs, lines, counters);
  }

  /** CreateDirectShipment: a group, its transit DC, its official DCs. */
  method CreateDirectShipment(db: Database, p: CreateParams) returns (r: Outcome<ShipmentIds>)
    modifies db
    ensures match DirectCheck(p)
      case Some(e) => r == Err(e) && db.Snapshot() == old(db.Snapshot())
      case None => (
        && r.Ok? && db.Snapshot() == AfterDirect(old(db.Snapshot()), p)
        && r.value.group == old(db.groups).next && r.value.transit == old(db.dcs).next
        && r.value.officials == IdsFrom(old(db.dcs).next + 1, |Consignments(p, |p.shipTos|)|)
        && (old(Invariants.Linked(db.Snapshot())) ==> Rows.DirectRows(old(db.Snapshot()), db.Snapshot(), p)))
  {
    hide Invariants.Linked, Rows.DirectRows, AfterDirect;
    if |p.shipTos| == 0 {
      return Err(NoLocations);
    }
    ghost var s := db.Snapshot();
    var ids := SaveDirect(db, p);
    if Invariants.Linked(s) {
      Rows.DirectHolds(s, p);
    }
    r := Ok(ids);
  }

  /** The plan rows of one destination. */
  method SavePlan(db: Database, dest: Id, items: seq<ItemParams>, i: nat)
    modifies db`plans
    ensures db.plans == old(db.plans).InsertAll(ColumnPlans(items, dest, i, |items|))
  {
    ghost var rows: seq<Plan> := [];
    for j := 0 to |items|
      invariant rows == ColumnPlans(items, dest, i, j)
      invariant db.plans == old(db.plans).InsertAll(rows)
    {
      if i < |items[j].quantities| && items[j].quantities[i] != 0 {
        var row := Plan(dest, items[j].key, items[j].quantities[i]);
        NextInserted(old(db.plans), db.plans, rows, row, rows + [row]);
        db.plans := db.plans.Insert(row);
        rows := rows + [row];
      }
    }
  }

  lemma {:induction false} RowCount(shipTos: seq<Id>, t: Id, u: Id, n: nat)
    requires n <= |shipTos|
    ensures |DestinationRows(shipTos, t, n)| == |DestinationRows(shipTos, u, n)|
  {
    if n > 0 {
      RowCount(shipTos, t, u, n - 1);
    }
  }

  /** dests and plans are d and q after the first n destinations were saved. */
  ghost predicate DestinationsSaved(d: Table<Destination>, q: Table<Plan>, p: CreateParams, transfer: Id, n: nat,
                                    dests: Table<Destination>, plans: Table<Plan>)
    requires n <= |p.shipTos|
  {
    && dests == d.InsertAll(DestinationRows(p.shipTos, transfer, n))
    && plans == q.InsertAll(PlanRows(p, d.next, n))
  }

  lemma NoDestinations(d: Table<Destination>, q: Table<Plan>, p: CreateParams, transfer: Id)
    ensures DestinationsSaved(d, q, p, transfer, 0, d, q)
  {
  }

  lemma SkippedDestination(d: Table<Destination>, q: Table<Plan>, p: CreateParams, transfer: Id, n: nat,
                           dests: Table<Destination>, plans: Table<Plan>)
    requires n < |p.shipTos| && p.shipTos[n] == 0 && DestinationsSaved(d, q, p, transfer, n, dests, plans)
    ensures DestinationsSaved(d, q, p, transfer, n + 1, dests, plans)
  {
    var rows, quantities := DestinationRows(p.shipTos, transfer, n), PlanRows(p, d.next, n);
    assert rows + [] == rows && quantities + [] == quantities;
  }

  lemma NextDestination(d: Table<Destination>, q: Table<Plan>, p: CreateParams, transfer: Id, n: nat,
                        dests: Table<Destination>, plans: Table<Plan>)
    requires n < |p.shipTos| && p.shipTos[n] != 0 && DestinationsSaved(d, q, p, transfer, n, dests, plans)
    ensures DestinationsSaved(d, q, p, transfer, n + 1, dests.Insert(Destination(transfer, p.shipTos[n], false, 0)),
                              plans.InsertAll(ColumnPlans(p.items, dests.next, n, |p.items|)))
  {
    RowCount(p.shipTos, transfer, 0, n);
    NextInserted(d, dests, DestinationRows(p.shipTos, transfer, n), Destination(transfer, p.shipTos[n], false, 0),
                 DestinationRows(p.shipTos, transfer, n + 1));
    NextInsertedAll(q, plans, PlanRows(p, d.next, n), ColumnPlans(p.items, dests.next, n, |p.items|), PlanRows(p, d.next, n + 1));
  }

  method SaveDestination(db: Database, transfer: Id, shipTo: Id, items: seq<ItemParams>, i: nat)
    modifies db`dests, db`plans
    ensures db.dests == old(db.dests).Insert(Destination(transfer, shipTo, false, 0))
    ensures db.plans == old(db.plans).InsertAll(ColumnPlans(items, old(db.dests).next, i, |items|))
  {
    var dest := db.dests.next;
    db.dests := db.dests.Insert(Destination(transfer, shipTo, false, 0));
    SavePlan(db, dest, items, i);
  }

  method SaveNextDestination(db: Database, p: CreateParams, transfer: Id, i: nat, ghost d: Table<Destination>, ghost q: Table<Plan>)
    requires i < |p.shipTos| && DestinationsSaved(d, q, p, transfer, i, db.dests, db.plans)
    modifies db`dests, db`plans
    ensures DestinationsSaved(d, q, p, transfer, i + 1, db.dests, db.plans)
  {
    if p.shipTos[i] == 0 {
      SkippedDestination(d, q, p, transfer, i, db.dests, db.plans);
    } else {
      NextDestination(d, q, p, transfer, i, db.dests, db.plans);
      SaveDestination(db, transfer, p.shipTos[i], p.items, i);
    }
  }

  /** A destination row for each non-blank destination, and its plan. */
  method SaveDestinations(db: Database, p: CreateParams, transfer: Id)
    modifies db`dests, db`plans
    ensures DestinationsSaved(old(db.dests), old(db.plans), p, transfer, |p.shipTos|, db.dests, db.plans)
  {
    hide *;
    ghost var d, q := db.dests, db.plans;
    NoDestinations(d, q, p, transfer);
    for i := 0 to |p.shipTos|
      invariant DestinationsSaved(d, q, p, transfer, i, db.dests, db.plans)
    {
      SaveNextDestination(db, p, transfer, i, d, q);
    }
  }

  /** The transfer DC itself, with its priced lines and serials. */
  method SaveTransfer(db: Database, p: CreateParams) returns (dc: Id)
    modifies db`dcs, db`lines, db`serials, db`counters
    ensures dc == old(db.dcs).next
    ensures db.dcs == old(db.dcs).Insert(Challan(p.project, DocNo(TransferKey(p), NextNumber(old(db.counters), db.starts, TransferKey(p))),
                                                 Transfer, Draft, 0, FirstShipTo(p), p.date))
    ensures var items := PricedItems(p.items, |p.items|);
      && db.lines == old(db.lines).InsertAll(ItemLines(items, dc))
      && db.serials == old(db.serials).InsertAll(SerialRows(items, p.project, old(db.lines).next, |items|))
    ensures db.counters == Advance(old(db.counters), db.starts, TransferKey(p), 1)
  {
    var number := db.NextDocNumber(p.project, Stdc, p.date);
    dc := db.dcs.next;
    db.dcs := db.dcs.Insert(Challan(p.project, number, Transfer, Draft, 0, if |p.shipTos| > 0 then p.shipTos[0] else 0, p.date));
    SavePricedItems(db, p.project, dc, p.items);
  }

  /** CreateTransferDC: the DC with its priced lines, its metadata, its destinations and plan. Without destinations
      the metadata row cannot be saved (num_destinations is a required field), and what was saved before it stays. */
  method CreateTransferDC(db: Database, p: CreateParams) returns (r: Outcome<Id>)
    modifies db
    ensures if p.shipTos == []
            then r == Err(NoLocations) && db.Snapshot() == TransferWithoutPlan(old(db.Snapshot()), p)
            else r == Ok(old(db.dcs).next) && db.Snapshot() == AfterTransfer(old(db.Snapshot()), p)
                 && (old(Invariants.Linked(db.Snapshot())) ==> Rows.TransferRows(old(db.Snapshot()), db.Snapshot(), p))
  {
    hide DestinationRows, PlanRows, PricedItems, ItemLines, SerialRows, Invariants.Linked, Rows.TransferRows;
    ghost var s := db.Snapshot();
    var dc := SaveTransfer(db, p);
    if |p.shipTos| == 0 {
      return Err(NoLocations);
    }
    var transfer := db.transfers.next;
    db.transfers := db.transfers.Insert(TransferDc(dc, |p.shipTos|, 0));
    SaveDestinations(db, p, transfer);
    if Invariants.Linked(s) {
      Rows.TransferHolds(s, p);
    }
    r := Ok(dc);
  }
}
