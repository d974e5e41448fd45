/** handlers/dc_delete.go, handlers/shipment_group.go and the undo of services/dc_split.go:
    nested deletions, innermost records first. */
module DeletionService {
  import opened Tables
  import opened Records
  import opened Shipments
  import opened SplitSpec
  import opened DeletionSpec
  import Runs

  // ---- Deleting one record after another ----

  lemma DeleteMore<R>(t: Table<R>, ids: seq<Id>, i: nat)
    requires i < |ids|
    ensures t.Delete(IdsIn(ids[..i])).Delete({ids[i]}) == t.Delete(IdsIn(ids[..i + 1]))
  {
    assert ids[..i + 1] == ids[..i] + [ids[i]];
    assert IdsIn(ids[..i + 1]) == IdsIn(ids[..i]) + {ids[i]};
    assert t.Delete(IdsIn(ids[..i])).Delete({ids[i]}).rows == t.Delete(IdsIn(ids[..i + 1])).rows;
  }

  lemma DeleteNothing<R>(t: Table<R>)
    ensures t.Delete(IdsIn([])) == t
  {
    assert IdsIn([]) == {};
    assert t.Delete({}).rows == t.rows;
  }

  lemma AllOf(s: set<Id>)
    ensures var ids := Ascending(s); ids[..|ids|] == ids && IdsIn(ids) == s
  {
  }

  method DeleteSerials(db: Database, line: Id)
    modifies db`serials
    ensures db.serials == old(db.serials).Delete(SerialsOf(old(db.serials), line))
  {
    var ids := Ascending(SerialsOf(db.serials, line));
    DeleteNothing(db.serials);
    for i := 0 to |ids|
      invariant db.serials == old(db.serials).Delete(IdsIn(ids[..i]))
    {
      DeleteMore(old(db.serials), ids, i);
      db.serials := db.serials.Delete({ids[i]});
    }
    AllOf(SerialsOf(old(db.serials), line));
  }

  lemma SerialsOfMore(serials: Table<Serial>, ids: seq<Id>, i: nat)
    requires i < |ids|
    ensures var before := serials.Delete(SerialsOfAll(serials, IdsIn(ids[..i])));
      before.Delete(SerialsOf(before, ids[i])) == serials.Delete(SerialsOfAll(serials, IdsIn(ids[..i + 1])))
  {
    var before := serials.Delete(SerialsOfAll(serials, IdsIn(ids[..i])));
    assert ids[..i + 1] == ids[..i] + [ids[i]];
    assert IdsIn(ids[..i + 1]) == IdsIn(ids[..i]) + {ids[i]};
    assert before.Delete(SerialsOf(before, ids[i])).rows
        == serials.Delete(SerialsOfAll(serials, IdsIn(ids[..i + 1]))).rows;
  }

  method DeleteLine(db: Database, line: Id)
    modifies db`lines, db`serials
    ensures db.lines == old(db.lines).Delete({line})
    ensures db.serials == old(db.serials).Delete(SerialsOf(old(db.serials), line))
  {
    DeleteSerials(db, line);
    db.lines := db.lines.Delete({line});
  }

  /** The lines of a DC, each after its serials. */
  method DeleteLines(db: Database, dc: Id)
    modifies db`lines, db`serials
    ensures var ls := LinesOf(old(db.lines), dc);
      db.lines == old(db.lines).Delete(ls) && db.serials == old(db.serials).Delete(SerialsOfAll(old(db.serials), ls))
  {
    var ids := Ascending(LinesOf(db.lines, dc));
    DeleteNothing(db.lines);
    assert SerialsOfAll(db.serials, IdsIn(ids[..0])) == {};
    DeleteNothing(db.serials);
    for i := 0 to |ids|
      invariant db.lines == old(db.lines).Delete(IdsIn(ids[..i]))
      invariant db.serials == old(db.serials).Delete(SerialsOfAll(old(db.serials), IdsIn(ids[..i])))
    {
      DeleteMore(old(db.lines), ids, i);
      SerialsOfMore(old(db.serials), ids, i);
      DeleteLine(db, ids[i]);
    }
    AllOf(LinesOf(old(db.lines), dc));
  }

  lemma RemoveNone(s: Store)
    ensures RemoveChallans(s, {}) == s
  {
    var a := RemoveChallans(s, {});
    assert a.dcs.rows == s.dcs.rows && a.lines.rows == s.lines.rows && a.serials.rows == s.serials.rows;
  }

  lemma RemoveMore(s: Store, ds: set<Id>, d: Id)
    ensures RemoveChallans(RemoveChallans(s, ds), {d}) == RemoveChallans(s, ds + {d})
  {
    var a, b, c := RemoveChallans(s, ds), RemoveChallans(RemoveChallans(s, ds), {d}), RemoveChallans(s, ds + {d});
    assert LinesOfAll(s.lines, ds + {d}) == LinesOfAll(s.lines, ds) + LinesOfAll(s.lines, {d});
    assert b.dcs.rows == c.dcs.rows && b.lines.rows == c.lines.rows;
    assert b.serials.rows == c.serials.rows;
  }

  /** A DC with everything recorded on it. */
  method DeleteChallan(db: Database, dc: Id)
    modifies db`dcs, db`lines, db`serials
    ensures db.Snapshot() == RemoveChallans(old(db.Snapshot()), {dc})
  {
    assert LinesOfAll(db.lines, {dc}) == LinesOf(db.lines, dc);
    DeleteLines(db, dc);
    db.dcs := db.dcs.Delete({dc});
  }

  method DeleteChallans(db: Database, ids: seq<Id>)
    modifies db`dcs, db`lines, db`serials
    ensures db.Snapshot() == RemoveChallans(old(db.Snapshot()), IdsIn(ids))
  {
    ghost var s := db.Snapshot();
    RemoveNone(s);
    assert IdsIn(ids[..0]) == {};
    for i := 0 to |ids|
      invariant db.Snapshot() == RemoveChallans(s, IdsIn(ids[..i]))
    {
      assert ids[..i + 1] == ids[..i] + [ids[i]];
      assert IdsIn(ids[..i + 1]) == IdsIn(ids[..i]) + {ids[i]};
      RemoveMore(s, IdsIn(ids[..i]), ids[i]);
      DeleteChallan(db, ids[i]);
    }
    assert ids[..|ids|] == ids;
  }

  /** The group record; the split records that name it go with it (cascade). */
  method DeleteGroupRecord(db: Database, g: Id)
    modifies db`groups, db`splits
    ensures db.groups == old(db.groups).Delete({g}) && db.splits == old(db.splits).Delete(SplitsOf(old(db.splits), g))
  {
    db.splits := db.splits.Delete(SplitsOf(db.splits, g));
    db.groups := db.groups.Delete({g});
  }

  // ---- Deleting groups and DCs ----

  /** deleteShipmentGroup */
  method DeleteShipmentGroup(db: Database, g: Id) returns (problem: Option<Error>)
    modifies db
    ensures problem == GroupDeleteCheck(old(db.Snapshot()), g)
    ensures db.Snapshot() == if problem == None then RemoveGroup(old(db.Snapshot()), g) else old(db.Snapshot())
  {
    if g !in db.groups.rows {
      return Some(GroupNotFound);
    }
    if db.groups.rows[g].status != Draft {
      return Some(GroupNotDraft);
    }
    AllOf(Members(db.dcs, g));
    DeleteChallans(db, Ascending(Members(db.dcs, g)));
    DeleteGroupRecord(db, g);
    problem := None;
  }

  /** HandleShipmentGroupDelete */
  method HandleShipmentGroupDelete(db: Database, project: Id, g: Id) returns (problem: Option<Error>)
    modifies db
    ensures problem == Runs.GroupDeleteRequest(old(db.Snapshot()), project, g)
    ensures db.Snapshot() == Runs.Step(old(db.Snapshot()), Runs.DeleteGroup(project, g))
  {
    if g in db.groups.rows && db.groups.rows[g].project != project {
      return Some(GroupNotFound);
    }
    problem := DeleteShipmentGroup(db, g);
  }

  method DeletePlans(db: Database, dest: Id)
    modifies db`plans
    ensures db.plans == old(db.plans).Delete(PlansOfAll(old(db.plans), {dest}))
  {
    var ids := Ascending(PlansOfAll(db.plans, {dest}));
    DeleteNothing(db.plans);
    for i := 0 to |ids|
      invariant db.plans == old(db.plans).Delete(IdsIn(ids[..i]))
    {
      DeleteMore(old(db.plans), ids, i);
      db.plans := db.plans.Delete({ids[i]});
    }
    AllOf(PlansOfAll(old(db.plans), {dest}));
  }

  lemma PlansOfNext(plans: Table<Plan>, ids: seq<Id>, i: nat)
    requires i < |ids|
    ensures var before := plans.Delete(PlansOfAll(plans, IdsIn(ids[..i])));
      before.Delete(PlansOfAll(before, {ids[i]})) == plans.Delete(PlansOfAll(plans, IdsIn(ids[..i + 1])))
  {
    var before := plans.Delete(PlansOfAll(plans, IdsIn(ids[..i])));
    assert ids[..i + 1] == ids[..i] + [ids[i]];
    assert IdsIn(ids[..i + 1]) == IdsIn(ids[..i]) + {ids[i]};
    assert before.Delete(PlansOfAll(before, {ids[i]})).rows == plans.Delete(PlansOfAll(plans, IdsIn(ids[..i + 1]))).rows;
  }

  method DeleteDestination(db: Database, d: Id)
    modifies db`dests, db`plans
    ensures db.dests == old(db.dests).Delete({d}) && db.plans == old(db.plans).Delete(PlansOfAll(old(db.plans), {d}))
  {
    DeletePlans(db, d);
    db.dests := db.dests.Delete({d});
  }

  /** The destinations of one metadata row, each after its planned quantities. */
  method DeleteDestinations(db: Database, t: Id)
    modifies db`dests, db`plans
    ensures var ds := DestinationsOf(old(db.dests), t);
      db.dests == old(db.dests).Delete(ds) && db.plans == old(db.plans).Delete(PlansOfAll(old(db.plans), ds))
  {
    var ids := Ascending(DestinationsOf(db.dests, t));
    ghost var d, q := db.dests, db.plans;
    DeleteNothing(d);
    assert PlansOfAll(q, IdsIn(ids[..0])) == {};
    DeleteNothing(q);
    for i := 0 to |ids|
      invariant db.dests == d.Delete(IdsIn(ids[..i]))
      invariant db.plans == q.Delete(PlansOfAll(q, IdsIn(ids[..i])))
    {
      DeleteMore(d, ids, i);
      PlansOfNext(q, ids, i);
      DeleteDestination(db, ids[i]);
    }
    AllOf(DestinationsOf(d, t));
  }

  /** transfers, dests and plans are what remains of t, d and q without the metadata rows ts. */
  ghost predicate WithoutTransfers(t: Table<TransferDc>, d: Table<Destination>, q: Table<Plan>, ts: set<Id>,
                                   transfers: Table<TransferDc>, dests: Table<Destination>, plans: Table<Plan>) {
    var ds := DestinationsOfAll(d, ts);
    transfers == t.Delete(ts) && dests == d.Delete(ds) && plans == q.Delete(PlansOfAll(q, ds))
  }

  lemma WithoutNone(t: Table<TransferDc>, d: Table<Destination>, q: Table<Plan>)
    ensures WithoutTransfers(t, d, q, {}, t, d, q)
  {
    assert t.Delete({}).rows == t.rows && d.Delete({}).rows == d.rows;
    assert PlansOfAll(q, DestinationsOfAll(d, {})) == {};
    assert q.Delete({}).rows == q.rows;
  }

  lemma WithoutMore(t: Table<TransferDc>, d: Table<Destination>, q: Table<Plan>, ts: set<Id>, u: Id,
                    transfers: Table<TransferDc>, dests: Table<Destination>, plans: Table<Plan>)
    requires WithoutTransfers(t, d, q, ts, transfers, dests, plans) && u !in ts
    ensures var ds := DestinationsOf(dests, u);
      WithoutTransfers(t, d, q, ts + {u}, transfers.Delete({u}), dests.Delete(ds), plans.Delete(PlansOfAll(plans, ds)))
  {
    var ds, all := DestinationsOf(dests, u), DestinationsOfAll(d, ts + {u});
    assert all == DestinationsOfAll(d, ts) + ds;
    assert transfers.Delete({u}).rows == t.Delete(ts + {u}).rows;
    assert dests.Delete(ds).rows == d.Delete(all).rows;
    assert plans.Delete(PlansOfAll(plans, ds)).rows == q.Delete(PlansOfAll(q, all)).rows;
  }

  method DeleteMetadataRow(db: Database, t: Id)
    modifies db`transfers, db`dests, db`plans
    ensures var ds := DestinationsOf(old(db.dests), t);
      && db.transfers == old(db.transfers).Delete({t}) && db.dests == old(db.dests).Delete(ds)
      && db.plans == old(db.plans).Delete(PlansOfAll(old(db.plans), ds))
  {
    DeleteDestinations(db, t);
    db.transfers := db.transfers.Delete({t});
  }

  method DeleteMetadata(db: Database, dc: Id)
    modifies db`transfers, db`dests, db`plans
    ensures WithoutTransfers(old(db.transfers), old(db.dests), old(db.plans), MetadataOf(old(db.transfers), dc),
                             db.transfers, db.dests, db.plans)
  {
    var ids := Ascending(MetadataOf(db.transfers, dc));
    ghost var t, d, q := db.transfers, db.dests, db.plans;
    WithoutNone(t, d, q);
    assert IdsIn(ids[..0]) == {};
    for i := 0 to |ids|
      invariant WithoutTransfers(t, d, q, IdsIn(ids[..i]), db.transfers, db.dests, db.plans)
    {
      assert ids[..i + 1] == ids[..i] + [ids[i]];
      assert IdsIn(ids[..i + 1]) == IdsIn(ids[..i]) + {ids[i]};
      WithoutMore(t, d, q, IdsIn(ids[..i]), ids[i], db.transfers, db.dests, db.plans);
      DeleteMetadataRow(db, ids[i]);
    }
    AllOf(MetadataOf(t, dc));
  }

  /** deleteTransferDCMetadata, then the DC itself. */
  method DeleteTransfer(db: Database, dc: Id)
    modifies db
    ensures db.Snapshot() == RemoveTransfer(old(db.Snapshot()), dc)
  {
    DeleteMetadata(db, dc);
    DeleteChallan(db, dc);
  }

  /** HandleDCDelete */
  method HandleDCDelete(db: Database, project: Id, dc: Id) returns (problem: Option<Error>)
    modifies db
    ensures problem == ChallanDeleteCheck(old(db.Snapshot()), project, dc)
    ensures db.Snapshot() == Runs.Step(old(db.Snapshot()), Runs.DeleteChallan(project, dc))
  {
    if dc !in db.dcs.rows || db.dcs.rows[dc].project != project {
      return Some(ChallanNotFound);
    }
    var row := db.dcs.rows[dc];
    if row.status != Draft {
      return Some(WrongStatus);
    }
    if row.group != 0 {
      problem := DeleteShipmentGroup(db, row.group);
      return;
    }
    if row.kind == Transfer {
      DeleteTransfer(db, dc);
    } else {
      DeleteChallan(db, dc);
    }
    problem := None;
  }

  // ---- Undoing a split ----

  /** The marks of the first n of ids taken off. */
  function UnmarkFirst(dests: Table<Destination>, ids: seq<Id>, n: nat): Table<Destination>
    requires n <= |ids|
  {
    dests.(rows := map d | d in dests.rows ::
      if d in ids[..n] then dests.rows[d].(isSplit := false, splitGroup := 0) else dests.rows[d])
  }

  lemma UnmarkedNone(dests: Table<Destination>, ids: seq<Id>)
    ensures UnmarkFirst(dests, ids, 0) == dests
  {
    assert UnmarkFirst(dests, ids, 0).rows == dests.rows;
  }

  lemma UnmarkedOne(dests: Table<Destination>, ids: seq<Id>, n: nat)
    requires n < |ids| && ids[n] in dests.rows
    ensures var m := UnmarkFirst(dests, ids, n);
      m.Update(ids[n], m.rows[ids[n]].(isSplit := false, splitGroup := 0)) == UnmarkFirst(dests, ids, n + 1)
  {
    var m := UnmarkFirst(dests, ids, n);
    assert ids[..n + 1] == ids[..n] + [ids[n]];
    assert m.Update(ids[n], m.rows[ids[n]].(isSplit := false, splitGroup := 0)).rows == UnmarkFirst(dests, ids, n + 1).rows;
  }

  method ResetDestinations(db: Database, t: Id, g: Id)
    modifies db`dests
    ensures db.dests == Unmark(old(db.dests), t, g)
  {
    var ids := Ascending(Block(db.dests, t, g));
    ghost var dests := db.dests;
    UnmarkedNone(dests, ids);
    for i := 0 to |ids|
      invariant db.dests == UnmarkFirst(dests, ids, i)
    {
      assert ids[i] in ids;
      UnmarkedOne(dests, ids, i);
      ResetDestination(db, ids[i]);
    }
    UnmarkedAll(dests, t, g);
  }

  method ResetDestination(db: Database, d: Id)
    requires d in db.dests.rows
    modifies db`dests
    ensures db.dests == old(db.dests).Update(d, old(db.dests).rows[d].(isSplit := false, splitGroup := 0))
  {
    db.dests := db.dests.Update(d, db.dests.rows[d].(isSplit := false, splitGroup := 0));
  }

  lemma UnmarkedAll(dests: Table<Destination>, t: Id, g: Id)
    ensures var ids := Ascending(Block(dests, t, g)); UnmarkFirst(dests, ids, |ids|) == Unmark(dests, t, g)
  {
    var ids := Ascending(Block(dests, t, g));
    AllOf(Block(dests, t, g));
    assert UnmarkFirst(dests, ids, |ids|).rows == Unmark(dests, t, g).rows;
  }

  lemma SplitDeletedTwice(splits: Table<SplitRec>, x: Id, g: Id)
    ensures splits.Delete({x}).Delete(SplitsOf(splits.Delete({x}), g)) == splits.Delete(SplitsOf(splits, g)).Delete({x})
  {
    assert splits.Delete({x}).Delete(SplitsOf(splits.Delete({x}), g)).rows == splits.Delete(SplitsOf(splits, g)).Delete({x}).rows;
  }

  /** The records of the child group and of the split. */
  method DeleteSplit(db: Database, x: Id, g: Id)
    modifies db`dcs, db`lines, db`serials, db`splits, db`groups
    ensures var a := RemoveGroup(old(db.Snapshot()), g); db.Snapshot() == a.(splits := a.splits.Delete({x}))
  {
    AllOf(Members(db.dcs, g));
    DeleteChallans(db, Ascending(Members(db.dcs, g)));
    SplitDeletedTwice(db.splits, x, g);
    db.splits := db.splits.Delete({x});
    DeleteGroupRecord(db, g);
  }

  /** UndoSplit: the marks come off, the child group goes, the count and the status go back. */
  method UndoSplit(db: Database, x: Id) returns (problem: Option<Error>)
    modifies db
    ensures problem == UndoCheck(old(db.Snapshot()), x)
    ensures db.Snapshot() == Runs.Step(old(db.Snapshot()), Runs.UndoSplit(x))
  {
    if x !in db.splits.rows {
      return Some(SplitNotFound);
    }
    var t, g := db.splits.rows[x].transfer, db.splits.rows[x].group;
    if t !in db.transfers.rows {
      return Some(MetadataNotFound);
    }
    var meta := db.transfers.rows[t];
    if meta.dc !in db.dcs.rows {
      return Some(ParentNotFound);
    }
    var parent := db.dcs.rows[meta.dc];
    if g !in db.groups.rows {
      return Some(GroupNotFound);
    }
    if db.groups.rows[g].status != Draft {
      return Some(GroupNotDraft);
    }
    ResetDestinations(db, t, g);
    DeleteSplit(db, x, g);
    var numSplit := meta.numSplit;
    if numSplit > 0 {
      numSplit := numSplit - 1;
    }
    db.transfers := db.transfers.Update(t, meta.(numSplit := numSplit));
    var status := if numSplit == 0 then Issued else if numSplit >= meta.numDestinations then Split else Splitting;
    db.dcs := db.dcs.Update(meta.dc, parent.(status := status));
    problem := None;
  }
}
