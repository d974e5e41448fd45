/** services/dc_split.go: splitting destinations off a transfer DC, and taking a split back. */
module SplitService {
  import opened Tables
  import opened Numbering
  import opened Records
  import opened Shipments
  import opened SplitSpec
  import opened CreationService
  import Invariants
  import Rows = CreatedRows

  // ---- Checking the selected destinations ----

  lemma {:induction false} ProblemStays(dests: Table<Destination>, t: Id, ds: seq<Id>, n: nat, m: nat)
    requires n <= m <= |ds| && FirstProblem(dests, t, ds, n).Some?
    ensures FirstProblem(dests, t, ds, m) == FirstProblem(dests, t, ds, n)
  {
    if n < m {
      ProblemStays(dests, t, ds, n, m - 1);
    }
  }

  method CheckDestinations(db: Database, t: Id, ds: seq<Id>) returns (problem: Option<Error>)
    ensures problem == FirstProblem(db.dests, t, ds, |ds|)
  {
    for i := 0 to |ds|
      invariant FirstProblem(db.dests, t, ds, i) == None
    {
      problem := None;
      if ds[i] !in db.dests.rows {
        problem := Some(DestinationNotFound(ds[i]));
      } else if db.dests.rows[ds[i]].isSplit {
        problem := Some(AlreadySplit(ds[i]));
      } else if db.dests.rows[ds[i]].transfer != t {
        problem := Some(ForeignDestination(ds[i]));
      }
      if problem.Some? {
        ProblemStays(db.dests, t, ds, i + 1, |ds|);
        return;
      }
    }
    problem := None;
  }

  // ---- Planning the items ----

  /** What one parent line contributes to a split. */
  datatype ItemInfo = ItemInfo(parent: Id, row: Line, total: int, perDest: map<Id, int>) {
    function QuantityFor(d: Id): int {
      if d in perDest then perDest[d] else 0
    }
  }

  /** info holds what the plan says about parent line l and the destinations ds. */
  ghost predicate Describes(info: ItemInfo, lines: Table<Line>, plans: Table<Plan>, ds: seq<Id>, l: Id) {
    && l in lines.rows && info.parent == l && info.row == lines.rows[l]
    && info.total == PlannedTotal(plans, ds, info.row.key, |ds|)
    && forall d :: d in ds ==> info.QuantityFor(d) == Planned(plans, d, info.row.key)
  }

  method PlanItem(db: Database, key: SourceKey, ds: seq<Id>) returns (total: int, perDest: map<Id, int>)
    ensures total == PlannedTotal(db.plans, ds, key, |ds|)
    ensures forall d :: d in ds ==> (if d in perDest then perDest[d] else 0) == Planned(db.plans, d, key)
  {
    total, perDest := 0, map[];
    for i := 0 to |ds|
      invariant total == PlannedTotal(db.plans, ds, key, i)
      invariant forall d :: d in perDest ==> perDest[d] == Planned(db.plans, d, key)
      invariant forall k :: 0 <= k < i ==> ds[k] in perDest || Planned(db.plans, ds[k], key) == 0
    {
      var found := PlansFor(db.plans, ds[i], key);
      if found != {} {
        var quantity := db.plans.rows[Least(found)].quantity;
        perDest := perDest[ds[i] := quantity];
        total := total + quantity;
      }
    }
  }

  /** The parent lines the selected destinations receive something of, with their planned quantities. */
  method PlanItems(db: Database, ids: seq<Id>, ds: seq<Id>) returns (infos: seq<ItemInfo>)
    requires forall l :: l in ids ==> l in db.lines.rows
    ensures var picked := Picked(db.lines, db.plans, ids, ds, |ids|);
      |infos| == |picked| && forall k :: 0 <= k < |infos| ==> Describes(infos[k], db.lines, db.plans, ds, picked[k])
  {
    infos := [];
    ghost var picked: seq<Id> := [];
    for i := 0 to |ids|
      invariant picked == Picked(db.lines, db.plans, ids, ds, i) && |infos| == |picked|
      invariant forall k :: 0 <= k < |infos| ==> Describes(infos[k], db.lines, db.plans, ds, picked[k])
    {
      var row := db.lines.rows[ids[i]];
      var total, perDest := PlanItem(db, row.key, ds);
      if total > 0 {
        infos := infos + [ItemInfo(ids[i], row, total, perDest)];
        picked := picked + [ids[i]];
      }
    }
  }

  // ---- The shipment made from the planned items ----

  function InfoItem(info: ItemInfo, allotted: map<Id, seq<string>>): Item {
    Item(PricedLine(info.row.key, info.total, info.row.rate, info.row.taxPercent, info.row.order),
         if info.parent in allotted then allotted[info.parent] else [])
  }

  function InfoItems(infos: seq<ItemInfo>, allotted: map<Id, seq<string>>, n: nat): (items: seq<Item>)
    requires n <= |infos|
    ensures |items| == n && forall k :: 0 <= k < n ==> items[k] == InfoItem(infos[k], allotted)
  {
    if n == 0 then [] else InfoItems(infos, allotted, n - 1) + [InfoItem(infos[n - 1], allotted)]
  }

  function InfoLines(infos: seq<ItemInfo>, d: Id, n: nat): seq<Line>
    requires n <= |infos|
  {
    if n == 0 then [] else
      var quantity := infos[n - 1].QuantityFor(d);
      InfoLines(infos, d, n - 1)
      + if quantity == 0 then [] else [PlainLine(infos[n - 1].row.key, quantity, infos[n - 1].row.order)]
  }

  lemma {:induction false} InfoLinesPlanned(s: Store, infos: seq<ItemInfo>, picked: seq<Id>, ds: seq<Id>, d: Id, n: nat)
    requires n <= |infos| == |picked| && d in ds && forall l :: l in picked ==> l in s.lines.rows
    requires forall k :: 0 <= k < |infos| ==> Describes(infos[k], s.lines, s.plans, ds, picked[k])
    ensures InfoLines(infos, d, n) == DestinationLines(s, picked, d, n)
  {
    if n > 0 {
      InfoLinesPlanned(s, infos, picked, ds, d, n - 1);
      assert Describes(infos[n - 1], s.lines, s.plans, ds, picked[n - 1]);
    }
  }

  lemma InfoItemsPlanned(s: Store, p: SplitParams, infos: seq<ItemInfo>, picked: seq<Id>)
    requires |infos| == |picked| && forall l :: l in picked ==> l in s.lines.rows
    requires forall k :: 0 <= k < |infos| ==> Describes(infos[k], s.lines, s.plans, p.dests, picked[k])
    ensures InfoItems(infos, p.allotted, |infos|) == SplitItems(s, p, picked)
  {
    forall k | 0 <= k < |infos|
      ensures InfoItem(infos[k], p.allotted) == SplitItem(s, p, picked[k])
    {
      assert Describes(infos[k], s.lines, s.plans, p.dests, picked[k]);
    }
  }

  method SaveInfoItems(db: Database, project: Id, dc: Id, infos: seq<ItemInfo>, allotted: map<Id, seq<string>>)
    modifies db`lines, db`serials
    ensures ItemsSaved(old(db.lines), old(db.serials), InfoItems(infos, allotted, |infos|), dc, project, db.lines, db.serials)
  {
    ghost var l, t, items: seq<Item> := db.lines, db.serials, [];
    for i := 0 to |infos|
      invariant items == InfoItems(infos, allotted, i)
      invariant ItemsSaved(l, t, items, dc, project, db.lines, db.serials)
    {
      var info := infos[i];
      var serials := if info.parent in allotted then allotted[info.parent] else [];
      ghost var it := InfoItem(info, allotted);
      NextItem(l, t, items, dc, project, db.lines, db.serials, it);
      SaveItem(db, project, dc, info.row.key, info.total, info.row.rate, info.row.taxPercent, info.row.order, serials);
      items := items + [it];
    }
  }

  method SaveInfoLines(db: Database, dc: Id, infos: seq<ItemInfo>, d: Id)
    modifies db`lines
    ensures db.lines == old(db.lines).InsertAll(Addressed(InfoLines(infos, d, |infos|), dc))
  {
    ghost var rows: seq<Line>, saved: seq<Line> := [], [];
    for i := 0 to |infos|
      invariant rows == InfoLines(infos, d, i) && saved == Addressed(rows, dc)
      invariant db.lines == old(db.lines).InsertAll(saved)
    {
      var quantity := if d in infos[i].perDest then infos[i].perDest[d] else 0;
      if quantity != 0 {
        var line := PlainLine(infos[i].row.key, quantity, infos[i].row.order);
        NextInserted(old(db.lines), db.lines, saved, line.(dc := dc), saved + [line.(dc := dc)]);
        db.lines := db.lines.Insert(line.(dc := dc));
        rows, saved := rows + [line], saved + [line.(dc := dc)];
      }
    }
  }

  /** The transit DC of a child group. */
  method SaveChildTransit(db: Database, parent: Challan, group: Id, shipTo: Id, infos: seq<ItemInfo>,
                          allotted: map<Id, seq<string>>, ghost s: Store, ghost sh: Shipment) returns (transit: Id)
    requires group == s.groups.next && s.(groups := db.groups) == db.Snapshot()
    requires sh.project == parent.project && sh.date == parent.date && sh.shipTo == shipTo
    requires sh.items == InfoItems(infos, allotted, |infos|)
    modifies db`dcs, db`lines, db`serials, db`counters
    ensures TransitSaved(s, sh, db.dcs, db.lines, db.serials, db.counters)
    ensures transit == s.dcs.next && db.dcs.next == transit + 1
  {
    var number := db.NextDocNumber(parent.project, Tdc, parent.date);
    transit := db.dcs.next;
    db.dcs := db.dcs.Insert(Challan(parent.project, number, Transit, Draft, group, shipTo, parent.date));
    SaveInfoItems(db, parent.project, transit, infos, allotted);
  }

  method SaveChildOfficial(db: Database, parent: Challan, group: Id, d: Id, infos: seq<ItemInfo>) returns (dc: Id)
    requires d in db.dests.rows
    modifies db`dcs, db`lines, db`counters
    ensures var key := OfficialKey(parent.project, parent.date);
      && dc == old(db.dcs).next
      && db.dcs == old(db.dcs).Insert(Challan(parent.project, DocNo(key, NextNumber(old(db.counters), db.starts, key)),
                                              Official, Draft, group, db.dests.rows[d].shipTo, parent.date))
      && db.lines == old(db.lines).InsertAll(Addressed(InfoLines(infos, d, |infos|), dc))
      && db.counters == Advance(old(db.counters), db.starts, key, 1)
  {
    var shipTo := db.dests.rows[d].shipTo;
    var number := db.NextDocNumber(parent.project, Odc, parent.date);
    dc := db.dcs.next;
    db.dcs := db.dcs.Insert(Challan(parent.project, number, Official, Draft, group, shipTo, parent.date));
    SaveInfoLines(db, dc, infos, d);
  }

  /** One official DC per selected destination. */
  method SaveChildOfficials(db: Database, parent: Challan, group: Id, ds: seq<Id>, infos: seq<ItemInfo>, ghost sh: Shipment)
      returns (ids: seq<Id>)
    requires forall d :: d in ds ==> d in db.dests.rows
    requires sh.project == parent.project && sh.date == parent.date && |sh.consignments| == |ds|
    requires forall i :: 0 <= i < |ds| ==>
      sh.consignments[i] == Consignment(db.dests.rows[ds[i]].shipTo, InfoLines(infos, ds[i], |infos|))
    modifies db`dcs, db`lines, db`counters
    ensures OfficialsSaved(old(db.dcs), old(db.lines), old(db.counters), db.starts, sh, group, db.dcs, db.lines, db.counters)
    ensures ids == IdsFrom(old(db.dcs).next, |ds|)
  {
    hide OfficialsSaved, InfoLines, IdsFrom;
    ids := [];
    ghost var d, l, c, cs := db.dcs, db.lines, db.counters, sh.consignments;
    NoOfficials(d, l, c, db.starts, sh.(consignments := []), group);
    for i := 0 to |ds|
      invariant OfficialsSaved(d, l, c, db.starts, sh.(consignments := cs[..i]), group, db.dcs, db.lines, db.counters)
      invariant ids == IdsFrom(d.next, i)
    {
      NextOfficial(d, l, c, db.starts, sh.(consignments := cs[..i]), group, db.dcs, db.lines, db.counters, cs[i]);
      NextId(d.next, i);
      assert cs[..i + 1] == cs[..i] + [cs[i]];
      var dc := SaveChildOfficial(db, parent, group, ds[i], infos);
      ids := ids + [dc];
    }
    assert cs[..|ds|] == cs;
  }

  // ---- Marking ----

  lemma MarkNone(dests: Table<Destination>, g: Id)
    ensures Mark(dests, [], g) == dests
  {
    assert Mark(dests, [], g).rows == dests.rows;
  }

  lemma MarkOne(dests: Table<Destination>, ds: seq<Id>, d: Id, g: Id)
    requires d in dests.rows
    ensures var m := Mark(dests, ds, g);
      Mark(dests, ds + [d], g) == m.Update(d, m.rows[d].(isSplit := true, splitGroup := g))
  {
    var m := Mark(dests, ds, g);
    assert Mark(dests, ds + [d], g).rows == m.Update(d, m.rows[d].(isSplit := true, splitGroup := g)).rows;
  }

  method MarkDestinations(db: Database, ds: seq<Id>, g: Id)
    requires forall d :: d in ds ==> d in db.dests.rows
    modifies db`dests
    ensures db.dests == Mark(old(db.dests), ds, g)
  {
    MarkNone(db.dests, g);
    for i := 0 to |ds|
      invariant db.dests == Mark(old(db.dests), ds[..i], g)
    {
      MarkOne(old(db.dests), ds[..i], ds[i], g);
      assert ds[..i + 1] == ds[..i] + [ds[i]];
      db.dests := db.dests.Update(ds[i], db.dests.rows[ds[i]].(isSplit := true, splitGroup := g));
    }
    assert ds[..|ds|] == ds;
  }

  // ---- CreateSplit ----

  datatype SplitIds = SplitIds(split: Id, group: Id, transit: Id, officials: seq<Id>)

  method CheckSplit(db: Database, p: SplitParams) returns (r: Outcome<Id>)
    ensures r == match SplitCheck(db.Snapshot(), p)
                 case Some(e) => Err(e)
                 case None => Ok(Least(MetadataOf(db.transfers, p.dc)))
  {
    if p.dc !in db.dcs.rows {
      return Err(ChallanNotFound);
    }
    var dc := db.dcs.rows[p.dc];
    if dc.status != Issued && dc.status != Splitting {
      return Err(WrongStatus);
    }
    if dc.kind != Transfer {
      return Err(NotTransfer);
    }
    var found := MetadataOf(db.transfers, p.dc);
    if found == {} {
      return Err(NoMetadata);
    }
    var t := Least(found);
    var problem := CheckDestinations(db, t, p.dests);
    if problem.Some? {
      return Err(problem.value);
    }
    if |p.dests| == 0 {
      return Err(NoLocations);
    }
    return Ok(t);
  }

  /** sh is the child shipment made from infos for destinations ds of transfer t. */
  ghost predicate MadeFrom(sh: Shipment, parent: Challan, t: Id, dests: Table<Destination>, ds: seq<Id>,
                           infos: seq<ItemInfo>, allotted: map<Id, seq<string>>) {
    && ds != [] && (forall d :: d in ds ==> d in dests.rows)
    && sh == Shipment(parent.project, parent.date, t, |ds|, dests.rows[ds[0]].shipTo, InfoItems(infos, allotted, |infos|), sh.consignments)
    && |sh.consignments| == |ds|
    && forall i :: 0 <= i < |ds| ==>
         sh.consignments[i] == Consignment(dests.rows[ds[i]].shipTo, InfoLines(infos, ds[i], |infos|))
  }

  lemma ChildMadeFrom(s: Store, p: SplitParams, infos: seq<ItemInfo>)
    requires SplitCheck(s, p) == None
    requires var picked := PickedLines(s, p);
      |infos| == |picked| && forall k :: 0 <= k < |infos| ==> Describes(infos[k], s.lines, s.plans, p.dests, picked[k])
    ensures MadeFrom(ChildShipment(s, p), s.dcs.rows[p.dc], Least(MetadataOf(s.transfers, p.dc)), s.dests, p.dests, infos, p.allotted)
  {
    var picked := PickedLines(s, p);
    CheckedDestinations(s, p);
    InfoItemsPlanned(s, p, infos, picked);
    forall i | 0 <= i < |p.dests|
      ensures InfoLines(infos, p.dests[i], |infos|) == DestinationLines(s, picked, p.dests[i], |picked|)
    {
      InfoLinesPlanned(s, infos, picked, p.dests, p.dests[i], |infos|);
    }
  }

  /** The child group with its DCs. */
  method SaveChild(db: Database, parent: Challan, t: Id, ds: seq<Id>, infos: seq<ItemInfo>, allotted: map<Id, seq<string>>, ghost sh: Shipment)
      returns (group: Id, transit: Id, officials: seq<Id>)
    requires MadeFrom(sh, parent, t, db.dests, ds, infos, allotted)
    modifies db`groups, db`dcs, db`lines, db`serials, db`counters
    ensures db.Snapshot() == AddShipment(old(db.Snapshot()), sh)
    ensures group == old(db.groups).next && transit == old(db.dcs).next && officials == IdsFrom(old(db.dcs).next + 1, |ds|)
  {
    hide AddShipment, OfficialsSaved, TransitSaved, InfoItems, InfoLines;
    ghost var s := db.Snapshot();
    group := db.groups.next;
    db.groups := db.groups.Insert(Group(parent.project, |ds|, Draft, t, 0));
    transit := SaveChildTransit(db, parent, group, db.dests.rows[ds[0]].shipTo, infos, allotted, s, sh);
    ghost var dcs, lines, counters := db.dcs, db.lines, db.counters;
    officials := SaveChildOfficials(db, parent, group, ds, infos, sh);
    SavedIsAdded(s, db.Snapshot(), sh, dcs, lines, counters);
  }

  lemma LinkedGroup(groups: Table<Group>, row: Group, split: Id)
    ensures groups.Insert(row).Update(groups.next, row.(split := split)) == groups.Insert(row.(split := split))
  {
    assert groups.Insert(row).Update(groups.next, row.(split := split)).rows == groups.Insert(row.(split := split)).rows;
  }

  /** The split record and the link back to it from its new group. */
  method LinkSplit(db: Database, t: Id, group: Id, number: int, ghost groups: Table<Group>, ghost row: Group) returns (split: Id)
    requires db.groups == groups.Insert(row) && group == groups.next
    modifies db`splits, db`groups
    ensures split == old(db.splits).next && db.splits == old(db.splits).Insert(SplitRec(t, group, number))
    ensures db.groups == groups.Insert(row.(split := split))
  {
    split := db.splits.next;
    db.splits := db.splits.Insert(SplitRec(t, group, number));
    LinkedGroup(groups, row, split);
    db.groups := db.groups.Update(group, db.groups.rows[group].(split := split));
  }

  /** The count and the status. */
  method SetProgress(db: Database, dc: Id, t: Id, parent: Challan, meta: TransferDc)
    modifies db`transfers, db`dcs
    ensures db.transfers == old(db.transfers).Update(t, meta.(numSplit := meta.numSplit + 1))
    ensures db.dcs == old(db.dcs).Update(dc, parent.(status := ProgressStatus(meta.numSplit + 1, meta.numDestinations)))
  {
    var numSplit := meta.numSplit + 1;
    db.transfers := db.transfers.Update(t, meta.(numSplit := numSplit));
    db.dcs := db.dcs.Update(dc, parent.(status := if numSplit >= meta.numDestinations then Split else Splitting));
  }

  /** The split record, the link back to it, the marks, the count and the status. */
  method FinishSplit(db: Database, p: SplitParams, t: Id, parent: Challan, meta: TransferDc, group: Id, ghost s: Store, ghost sh: Shipment)
      returns (split: Id)
    requires p.dc in s.dcs.rows && s.dcs.rows[p.dc] == parent && t in s.transfers.rows && s.transfers.rows[t] == meta
    requires db.Snapshot() == AddShipment(s, sh) && group == s.groups.next
    requires forall d :: d in p.dests ==> d in s.dests.rows
    modifies db
    ensures db.Snapshot() == SplitOff(s, p.dc, p.dests, t, sh) && split == s.splits.next
  {
    hide ShipmentChallans, ShipmentLines, SerialRows, Mark;
    split := LinkSplit(db, t, group, meta.numSplit + 1, s.groups, Group(sh.project, sh.locations, Draft, sh.transfer, 0));
    MarkDestinations(db, p.dests, group);
    SetProgress(db, p.dc, t, parent, meta);
  }

  /** CreateSplit: a child group for the selected destinations, which are marked with it. */
  method CreateSplit(db: Database, p: SplitParams) returns (r: Outcome<SplitIds>)
    modifies db
    ensures match SplitCheck(old(db.Snapshot()), p)
      case Some(e) => r == Err(e) && db.Snapshot() == old(db.Snapshot())
      case None => (
        && db.Snapshot() == AfterSplit(old(db.Snapshot()), p)
        && r == Ok(SplitIds(old(db.splits).next, old(db.groups).next, old(db.dcs).next, IdsFrom(old(db.dcs).next + 1, |p.dests|)))
        && (old(Invariants.Linked(db.Snapshot())) ==> p.dc in old(db.dcs).rows && Rows.SplitRows(old(db.Snapshot()), db.Snapshot(), p)))
  {
    hide Picked, SplitOff, MadeFrom, Describes, Invariants.Linked, Rows.SplitRows;
    ghost var s := db.Snapshot();
    var check := CheckSplit(db, p);
    if check.Err? {
      return Err(check.error);
    }
    var t := check.value;
    CheckedDestinations(s, p);
    var parent, meta := db.dcs.rows[p.dc], db.transfers.rows[t];
    var infos := PlanItems(db, Ascending(LinesOf(db.lines, p.dc)), p.dests);
    ghost var sh := ChildShipment(s, p);
    ChildMadeFrom(s, p, infos);
    var group, transit, officials := SaveChild(db, parent, t, p.dests, infos, p.allotted, sh);
    var split := FinishSplit(db, p, t, parent, meta, group, s, sh);
    if Invariants.Linked(s) {
      Rows.SplitHolds(s, p);
    }
    r := Ok(SplitIds(split, group, transit, officials));
  }
}
