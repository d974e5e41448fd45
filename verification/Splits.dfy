/** services/dc_split.go as functions of the tables. */
module SplitSpec {
  import opened Tables
  import opened Records
  import opened Shipments

  datatype SplitParams = SplitParams(dc: Id, dests: seq<Id>, allotted: map<Id, seq<string>>)

  function ProgressStatus(numSplit: nat, numDestinations: nat): Status {
    if numSplit == 0 then Issued else if numSplit >= numDestinations then Split else Splitting
  }

  // ---- Creating a split ----

  function Problem(dests: Table<Destination>, t: Id, d: Id): Option<Error> {
    if d !in dests.rows then Some(DestinationNotFound(d))
    else if dests.rows[d].isSplit then Some(AlreadySplit(d))
    else if dests.rows[d].transfer != t then Some(ForeignDestination(d))
    else None
  }

  /** The first problem among the first n selected destinations. */
  function FirstProblem(dests: Table<Destination>, t: Id, ds: seq<Id>, n: nat): Option<Error>
    requires n <= |ds|
  {
    if n == 0 then None else
      var e := FirstProblem(dests, t, ds, n - 1);
      if e.Some? then e else Problem(dests, t, ds[n - 1])
  }

  function SplitCheck(s: Store, p: SplitParams): Option<Error> {
    if p.dc !in s.dcs.rows then Some(ChallanNotFound)
    else if s.dcs.rows[p.dc].status != Issued && s.dcs.rows[p.dc].status != Splitting then Some(WrongStatus)
    else if s.dcs.rows[p.dc].kind != Transfer then Some(NotTransfer)
    else if MetadataOf(s.transfers, p.dc) == {} then Some(NoMetadata)
    else
      var e := FirstProblem(s.dests, Least(MetadataOf(s.transfers, p.dc)), p.dests, |p.dests|);
      if e.Some? then e
      else if p.dests == [] then Some(NoLocations)
      else None
  }

  /** The quantity planned for one item over the first n selected destinations. */
  function PlannedTotal(plans: Table<Plan>, ds: seq<Id>, key: SourceKey, n: nat): int
    requires n <= |ds|
  {
    if n == 0 then 0 else PlannedTotal(plans, ds, key, n - 1) + Planned(plans, ds[n - 1], key)
  }

  /** The parent lines among the first n of ids that the selected destinations receive something of. */
  function Picked(lines: Table<Line>, plans: Table<Plan>, ids: seq<Id>, ds: seq<Id>, n: nat): (r: seq<Id>)
    requires n <= |ids| && forall l :: l in ids ==> l in lines.rows
    ensures forall l :: l in r ==> l in ids
  {
    if n == 0 then [] else
      Picked(lines, plans, ids, ds, n - 1)
      + if PlannedTotal(plans, ds, lines.rows[ids[n - 1]].key, |ds|) > 0 then [ids[n - 1]] else []
  }

  function SplitItem(s: Store, p: SplitParams, l: Id): Item
    requires l in s.lines.rows
  {
    var row := s.lines.rows[l];
    Item(PricedLine(row.key, PlannedTotal(s.plans, p.dests, row.key, |p.dests|), row.rate, row.taxPercent, row.order),
         if l in p.allotted then p.allotted[l] else [])
  }

  function SplitItems(s: Store, p: SplitParams, picked: seq<Id>): seq<Item>
    requires forall l :: l in picked ==> l in s.lines.rows
  {
    seq(|picked|, i requires 0 <= i < |picked| => SplitItem(s, p, picked[i]))
  }

  /** The lines of the official DC for destination d, from the first n picked parent lines. */
  function DestinationLines(s: Store, picked: seq<Id>, d: Id, n: nat): seq<Line>
    requires n <= |picked| && forall l :: l in picked ==> l in s.lines.rows
  {
    if n == 0 then [] else
      var row := s.lines.rows[picked[n - 1]];
      var quantity := Planned(s.plans, d, row.key);
      DestinationLines(s, picked, d, n - 1)
      + if quantity == 0 then [] else [PlainLine(row.key, quantity, row.order)]
  }

  function DestinationConsignment(s: Store, picked: seq<Id>, d: Id): Consignment
    requires d in s.dests.rows && forall l :: l in picked ==> l in s.lines.rows
  {
    Consignment(s.dests.rows[d].shipTo, DestinationLines(s, picked, d, |picked|))
  }

  function SplitConsignments(s: Store, picked: seq<Id>, ds: seq<Id>): seq<Consignment>
    requires forall d :: d in ds ==> d in s.dests.rows
    requires forall l :: l in picked ==> l in s.lines.rows
  {
    seq(|ds|, i requires 0 <= i < |ds| => DestinationConsignment(s, picked, ds[i]))
  }

  function ParentLines(s: Store, dc: Id): seq<Id> {
    Ascending(LinesOf(s.lines, dc))
  }

  function PickedLines(s: Store, p: SplitParams): (r: seq<Id>)
    ensures forall l :: l in r ==> l in LinesOf(s.lines, p.dc)
  {
    var ids := ParentLines(s, p.dc);
    Picked(s.lines, s.plans, ids, p.dests, |ids|)
  }

  lemma NoProblem(dests: Table<Destination>, t: Id, ds: seq<Id>, n: nat)
    requires n <= |ds|
    ensures FirstProblem(dests, t, ds, n) == None <==>
            forall i :: 0 <= i < n ==> Problem(dests, t, ds[i]) == None
  {
  }

  lemma CheckedDestinations(s: Store, p: SplitParams)
    requires SplitCheck(s, p) == None
    ensures p.dests != []
    ensures forall d :: d in p.dests ==>
              d in s.dests.rows && !s.dests.rows[d].isSplit &&
              s.dests.rows[d].transfer == Least(MetadataOf(s.transfers, p.dc))
  {
    var t := Least(MetadataOf(s.transfers, p.dc));
    NoProblem(s.dests, t, p.dests, |p.dests|);
    forall d | d in p.dests
      ensures Problem(s.dests, t, d) == None
    {
      var i :| 0 <= i < |p.dests| && p.dests[i] == d;
    }
  }

  function ChildShipment(s: Store, p: SplitParams): Shipment
    requires SplitCheck(s, p) == None
  {
    CheckedDestinations(s, p);
    var dc := s.dcs.rows[p.dc];
    var picked := PickedLines(s, p);
    Shipment(dc.project, dc.date, Least(MetadataOf(s.transfers, p.dc)), |p.dests|,
             s.dests.rows[p.dests[0]].shipTo,
             SplitItems(s, p, picked), SplitConsignments(s, picked, p.dests))
  }

  function Mark(dests: Table<Destination>, ds: seq<Id>, g: Id): Table<Destination> {
    dests.(rows := map d | d in dests.rows ::
      if d in ds then dests.rows[d].(isSplit := true, splitGroup := g) else dests.rows[d])
  }

  /** The tables after child shipment sh was split off transfer t of DC dc for destinations ds. */
  function SplitOff(s: Store, dc: Id, ds: seq<Id>, t: Id, sh: Shipment): Store
    requires dc in s.dcs.rows && t in s.transfers.rows
  {
    var meta := s.transfers.rows[t];
    var a := AddShipment(s, sh);
    a.(splits := s.splits.Insert(SplitRec(t, s.groups.next, meta.numSplit + 1)),
       groups := s.groups.Insert(Group(sh.project, sh.locations, Draft, sh.transfer, s.splits.next)),
       dests := Mark(s.dests, ds, s.groups.next),
       transfers := s.transfers.Update(t, meta.(numSplit := meta.numSplit + 1)),
       dcs := a.dcs.Update(dc, s.dcs.rows[dc].(
         status := ProgressStatus(meta.numSplit + 1, meta.numDestinations))))
  }

  function AfterSplit(s: Store, p: SplitParams): Store
    requires SplitCheck(s, p) == None
  {
    SplitOff(s, p.dc, p.dests, Least(MetadataOf(s.transfers, p.dc)), ChildShipment(s, p))
  }

  // ---- Undoing a split ----

  function UndoCheck(s: Store, split: Id): Option<Error> {
    if split !in s.splits.rows then Some(SplitNotFound)
    else
      var r := s.splits.rows[split];
      if r.transfer !in s.transfers.rows then Some(MetadataNotFound)
      else if s.transfers.rows[r.transfer].dc !in s.dcs.rows then Some(ParentNotFound)
      else if r.group !in s.groups.rows then Some(GroupNotFound)
      else if s.groups.rows[r.group].status != Draft then Some(GroupNotDraft)
      else None
  }

  function Unmark(dests: Table<Destination>, t: Id, g: Id): Table<Destination> {
    dests.(rows := map d | d in dests.rows ::
      if d in Block(dests, t, g) then dests.rows[d].(isSplit := false, splitGroup := 0) else dests.rows[d])
  }

  function AfterUndo(s: Store, split: Id): Store
    requires UndoCheck(s, split) == None
  {
    var t := s.splits.rows[split].transfer;
    var g := s.splits.rows[split].group;
    var meta := s.transfers.rows[t];
    var numSplit := if meta.numSplit > 0 then meta.numSplit - 1 else 0;
    var a := RemoveGroup(s, g);
    a.(dests := Unmark(s.dests, t, g),
       splits := a.splits.Delete({split}),
       transfers := s.transfers.Update(t, meta.(numSplit := numSplit)),
       dcs := a.dcs.Update(meta.dc, s.dcs.rows[meta.dc].(
         status := ProgressStatus(numSplit, meta.numDestinations))))
  }
}
