/** What creating and removing a shipment group does to the tables:
    one group, its transit DC with priced lines and serials, its official DCs. */
module Shipments {
  import opened Tables
  import opened Numbering
  import opened Records

  /** A line of the transit DC with the serial numbers recorded on it. */
  datatype Item = Item(line: Line, serials: seq<string>)

  /** The contents of one official DC. */
  datatype Consignment = Consignment(shipTo: Id, lines: seq<Line>)

  datatype Shipment = Shipment(project: Id, date: Date, transfer: Id, locations: nat, shipTo: Id,
                               items: seq<Item>, consignments: seq<Consignment>)

  function PricedLine(key: SourceKey, quantity: int, rate: real, taxPercent: real, order: nat): Line {
    var taxable := rate * quantity as real;
    var tax := taxable * taxPercent / 100.0;
    Line(0, key, quantity, rate, taxPercent, taxable, tax, taxable + tax, order)
  }

  function PlainLine(key: SourceKey, quantity: int, order: nat): Line {
    Line(0, key, quantity, 0.0, 0.0, 0.0, 0.0, 0.0, order)
  }

  function Addressed(lines: seq<Line>, dc: Id): (rows: seq<Line>) {
    seq(|lines|, i requires 0 <= i < |lines| => lines[i].(dc := dc))
  }

  function ItemLines(items: seq<Item>, dc: Id): seq<Line> {
    seq(|items|, i requires 0 <= i < |items| => items[i].line.(dc := dc))
  }

  function LineSerials(texts: seq<string>, project: Id, line: Id): seq<Serial> {
    seq(|texts|, i requires 0 <= i < |texts| => Serial(project, line, texts[i]))
  }

  /** The serial rows of the first n items; item i sits on line first + i. */
  function SerialRows(items: seq<Item>, project: Id, first: Id, n: nat): seq<Serial>
    requires n <= |items|
  {
    if n == 0 then [] else
      SerialRows(items, project, first, n - 1) + LineSerials(items[n - 1].serials, project, first + n - 1)
  }

  /** The lines of the first n official DCs; consignment i goes on DC first + i. */
  function OfficialLines(cs: seq<Consignment>, first: Id, n: nat): seq<Line>
    requires n <= |cs|
  {
    if n == 0 then [] else OfficialLines(cs, first, n - 1) + Addressed(cs[n - 1].lines, first + n - 1)
  }

  lemma {:induction false} OfficialLinesPrefix(cs: seq<Consignment>, c: Consignment, first: Id, n: nat)
    requires n <= |cs|
    ensures OfficialLines(cs + [c], first, n) == OfficialLines(cs, first, n)
  {
    if n > 0 {
      OfficialLinesPrefix(cs, c, first, n - 1);
    }
  }

  function TransitKey(project: Id, date: Date): SeqKey {
    SeqKey(project, Tdc, FinancialYear(date))
  }

  function OfficialKey(project: Id, date: Date): SeqKey {
    SeqKey(project, Odc, FinancialYear(date))
  }

  function OfficialChallan(sh: Shipment, group: Id, firstNo: nat, i: nat): Challan
    requires i < |sh.consignments|
  {
    Challan(sh.project, DocNo(OfficialKey(sh.project, sh.date), firstNo + i), Official, Draft, group,
            sh.consignments[i].shipTo, sh.date)
  }

  function OfficialChallans(sh: Shipment, group: Id, firstNo: nat): seq<Challan> {
    seq(|sh.consignments|, i requires 0 <= i < |sh.consignments| => OfficialChallan(sh, group, firstNo, i))
  }

  function TransitChallan(s: Store, sh: Shipment): Challan {
    var key := TransitKey(sh.project, sh.date);
    Challan(sh.project, DocNo(key, NextNumber(s.counters, s.starts, key)), Transit, Draft,
            s.groups.next, sh.shipTo, sh.date)
  }

  function ShipmentLines(s: Store, sh: Shipment): seq<Line> {
    ItemLines(sh.items, s.dcs.next) + OfficialLines(sh.consignments, s.dcs.next + 1, |sh.consignments|)
  }

  function ShipmentChallans(s: Store, sh: Shipment): seq<Challan> {
    [TransitChallan(s, sh)]
    + OfficialChallans(sh, s.groups.next,
                       NextNumber(s.counters, s.starts, OfficialKey(sh.project, sh.date)))
  }

  function AddShipment(s: Store, sh: Shipment): Store {
    var c := Advance(s.counters, s.starts, TransitKey(sh.project, sh.date), 1);
    s.(groups := s.groups.Insert(Group(sh.project, sh.locations, Draft, sh.transfer, 0)),
       dcs := s.dcs.InsertAll(ShipmentChallans(s, sh)),
       lines := s.lines.InsertAll(ShipmentLines(s, sh)),
       serials := s.serials.InsertAll(SerialRows(sh.items, sh.project, s.lines.next, |sh.items|)),
       counters := Advance(c, s.starts, OfficialKey(sh.project, sh.date), |sh.consignments|))
  }

  // ---- Removal ----

  function LinesOfAll(lines: Table<Line>, dcs: set<Id>): set<Id> {
    set l | l in lines.rows && lines.rows[l].dc in dcs
  }

  function SerialsOfAll(serials: Table<Serial>, lines: set<Id>): set<Id> {
    set x | x in serials.rows && serials.rows[x].line in lines
  }

  /** Deleting some DCs with everything recorded on them. */
  function RemoveChallans(s: Store, ds: set<Id>): Store {
    var ls := LinesOfAll(s.lines, ds);
    s.(dcs := s.dcs.Delete(ds),
       lines := s.lines.Delete(ls),
       serials := s.serials.Delete(SerialsOfAll(s.serials, ls)))
  }

  function SplitsOf(splits: Table<SplitRec>, group: Id): set<Id> {
    set p | p in splits.rows && splits.rows[p].group == group
  }

  /** Deleting a group, its members, and (by cascade) the split records that name it. */
  function RemoveGroup(s: Store, g: Id): Store {
    RemoveChallans(s, Members(s.dcs, g))
      .(splits := s.splits.Delete(SplitsOf(s.splits, g)), groups := s.groups.Delete({g}))
  }
}
