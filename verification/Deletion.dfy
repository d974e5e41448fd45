/** handlers/dc_delete.go and handlers/shipment_group.go as functions of the tables. */
module DeletionSpec {
  import opened Tables
  import opened Records
  import opened Shipments

  function GroupDeleteCheck(s: Store, g: Id): Option<Error> {
    if g !in s.groups.rows then Some(GroupNotFound)
    else if s.groups.rows[g].status != Draft then Some(GroupNotDraft)
    else None
  }

  function DestinationsOfAll(dests: Table<Destination>, ts: set<Id>): set<Id> {
    set d | d in dests.rows && dests.rows[d].transfer in ts
  }

  function PlansOfAll(plans: Table<Plan>, ds: set<Id>): set<Id> {
    set p | p in plans.rows && plans.rows[p].destination in ds
  }

  /** Deleting a transfer DC with its metadata, destinations and plan. */
  function RemoveTransfer(s: Store, dc: Id): Store {
    var ts := MetadataOf(s.transfers, dc);
    var ds := DestinationsOfAll(s.dests, ts);
    RemoveChallans(s, {dc})
      .(transfers := s.transfers.Delete(ts),
        dests := s.dests.Delete(ds),
        plans := s.plans.Delete(PlansOfAll(s.plans, ds)))
  }

  function ChallanDeleteCheck(s: Store, project: Id, dc: Id): Option<Error> {
    if dc !in s.dcs.rows || s.dcs.rows[dc].project != project then Some(ChallanNotFound)
    else if s.dcs.rows[dc].status != Draft then Some(WrongStatus)
    else if s.dcs.rows[dc].group != 0 then GroupDeleteCheck(s, s.dcs.rows[dc].group)
    else None
  }

  function AfterChallanDelete(s: Store, dc: Id): Store
    requires dc in s.dcs.rows
  {
    var row := s.dcs.rows[dc];
    if row.group != 0 then RemoveGroup(s, row.group)
    else if row.kind == Transfer then RemoveTransfer(s, dc)
    else RemoveChallans(s, {dc})
  }
}
