/** services/dc_creation.go as functions of the tables. */
module CreationSpec {
  import opened Tables
  import opened Numbering
  import opened Records
  import opened Shipments

  datatype ItemParams = ItemParams(key: SourceKey, rate: real, taxPercent: real,
                                   quantities: seq<int>, total: int, serials: seq<string>) {
    /** Nothing where fewer quantities were submitted. */
    function QuantityAt(i: nat): (q: int)
      ensures i < |quantities| ==> q == quantities[i]
      ensures i >= |quantities| ==> q == 0
    {
      if i < |quantities| then quantities[i] else 0
    }
  }

  datatype CreateParams = CreateParams(project: Id, date: Date, shipTos: seq<Id>, items: seq<ItemParams>)

  /** The priced lines of the first n items; items of total 0 are skipped. */
  function PricedItems(items: seq<ItemParams>, n: nat): seq<Item>
    requires n <= |items|
  {
    if n == 0 then [] else
      var it := items[n - 1];
      PricedItems(items, n - 1)
      + if it.total == 0 then [] else
          [Item(PricedLine(it.key, it.total, it.rate, it.taxPercent, n), it.serials)]
  }

  // ---- Direct shipments ----

  predicate HasQuantity(items: seq<ItemParams>, i: nat) {
    exists j :: 0 <= j < |items| && items[j].QuantityAt(i) > 0
  }

  function ConsignmentLines(items: seq<ItemParams>, i: nat, n: nat): seq<Line>
    requires n <= |items|
  {
    if n == 0 then [] else
      ConsignmentLines(items, i, n - 1)
      + if items[n - 1].QuantityAt(i) == 0 then [] else
          [PlainLine(items[n - 1].key, items[n - 1].QuantityAt(i), n)]
  }

  /** One consignment for each non-blank destination among the first n that receives something. */
  function Consignments(p: CreateParams, n: nat): seq<Consignment>
    requires n <= |p.shipTos|
  {
    if n == 0 then [] else
      Consignments(p, n - 1)
      + if p.shipTos[n - 1] == 0 || !HasQuantity(p.items, n - 1) then [] else
          [Consignment(p.shipTos[n - 1], ConsignmentLines(p.items, n - 1, |p.items|))]
  }

  function FirstShipTo(p: CreateParams): Id {
    if p.shipTos == [] then 0 else p.shipTos[0]
  }

  function DirectShipment(p: CreateParams): Shipment {
    Shipment(p.project, p.date, 0, |p.shipTos|, FirstShipTo(p),
             PricedItems(p.items, |p.items|), Consignments(p, |p.shipTos|))
  }

  /** A group without locations cannot be saved (num_locations is a required field). */
  function DirectCheck(p: CreateParams): Option<Error> {
    if p.shipTos == [] then Some(NoLocations) else None
  }

  function AfterDirect(s: Store, p: CreateParams): Store {
    AddShipment(s, DirectShipment(p))
  }

  // ---- Transfer DCs ----

  function DestinationRows(shipTos: seq<Id>, transfer: Id, n: nat): seq<Destination>
    requires n <= |shipTos|
  {
    if n == 0 then [] else
      DestinationRows(shipTos, transfer, n - 1)
      + if shipTos[n - 1] == 0 then [] else [Destination(transfer, shipTos[n - 1], false, 0)]
  }

  /** The plan rows of the first n items for column i, filed under one destination. */
  function ColumnPlans(items: seq<ItemParams>, dest: Id, i: nat, n: nat): seq<Plan>
    requires n <= |items|
  {
    if n == 0 then [] else
      ColumnPlans(items, dest, i, n - 1)
      + if items[n - 1].QuantityAt(i) == 0 then [] else
          [Plan(dest, items[n - 1].key, items[n - 1].QuantityAt(i))]
  }

  function PlanRows(p: CreateParams, first: Id, n: nat): seq<Plan>
    requires n <= |p.shipTos|
  {
    if n == 0 then [] else
      PlanRows(p, first, n - 1)
      + if p.shipTos[n - 1] == 0 then [] else
          ColumnPlans(p.items, first + |DestinationRows(p.shipTos, 0, n - 1)|, n - 1, |p.items|)
  }

  function TransferKey(p: CreateParams): SeqKey {
    SeqKey(p.project, Stdc, FinancialYear(p.date))
  }

  function TransferChallan(s: Store, p: CreateParams): Challan {
    Challan(p.project, DocNo(TransferKey(p), NextNumber(s.counters, s.starts, TransferKey(p))),
            Transfer, Draft, 0, FirstShipTo(p), p.date)
  }

  /** The DC with its lines and serials, before any metadata. */
  function TransferWithoutPlan(s: Store, p: CreateParams): Store {
    var items := PricedItems(p.items, |p.items|);
    s.(dcs := s.dcs.Insert(TransferChallan(s, p)),
       lines := s.lines.InsertAll(ItemLines(items, s.dcs.next)),
       serials := s.serials.InsertAll(SerialRows(items, p.project, s.lines.next, |items|)),
       counters := Advance(s.counters, s.starts, TransferKey(p), 1))
  }

  function AfterTransfer(s: Store, p: CreateParams): Store {
    var items := PricedItems(p.items, |p.items|);
    s.(dcs := s.dcs.Insert(TransferChallan(s, p)),
       lines := s.lines.InsertAll(ItemLines(items, s.dcs.next)),
       serials := s.serials.InsertAll(SerialRows(items, p.project, s.lines.next, |items|)),
       transfers := s.transfers.Insert(TransferDc(s.dcs.next, |p.shipTos|, 0)),
       dests := s.dests.InsertAll(DestinationRows(p.shipTos, s.transfers.next, |p.shipTos|)),
       plans := s.plans.InsertAll(PlanRows(p, s.dests.next, |p.shipTos|)),
       counters := Advance(s.counters, s.starts, TransferKey(p), 1))
  }
}
