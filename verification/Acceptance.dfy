/** Which calls are accepted in a sound state, in terms of what a caller can look up beforehand,
    and exactly which rows an accepted deletion takes away. */
module Acceptance {
  import opened Tables
  import opened Records
  import opened Shipments
  import opened SplitSpec
  import opened IssueSpec
  import opened DeletionSpec
  import opened Invariants
  import opened SerialRules
  import opened Runs

  // ---- Splits ----

  lemma MetadataIs(s: Store, dc: Id)
    requires Linked(s) && dc in s.dcs.rows && s.dcs.rows[dc].kind == Transfer
    ensures MetadataOf(s.transfers, dc) != {}
    ensures forall t :: t in s.transfers.rows ==> (t == Least(MetadataOf(s.transfers, dc)) <==> s.transfers.rows[t].dc == dc)
  {
    var t := Least(MetadataOf(s.transfers, dc));
    assert t in MetadataOf(s.transfers, dc);
  }

  /** Destination d can be selected for a split of transfer DC dc. */
  ghost predicate Unsplit(s: Store, dc: Id, d: Id) {
    && d in s.dests.rows && !s.dests.rows[d].isSplit
    && s.dests.rows[d].transfer in s.transfers.rows && s.transfers.rows[s.dests.rows[d].transfer].dc == dc
  }

  lemma NoProblemExactly(s: Store, dc: Id, d: Id)
    requires Linked(s) && dc in s.dcs.rows && s.dcs.rows[dc].kind == Transfer && MetadataOf(s.transfers, dc) != {}
    ensures Problem(s.dests, Least(MetadataOf(s.transfers, dc)), d) == None <==> Unsplit(s, dc, d)
  {
    MetadataIs(s, dc);
  }

  /** A split is accepted exactly when the transfer DC is issued or splitting and every selected destination,
      of which there must be one, is an unsplit one of it. */
  lemma SplitAcceptedExactly(s: Store, p: SplitParams)
    requires Inv(s)
    ensures SplitCheck(s, p) == None <==>
      && p.dc in s.dcs.rows && s.dcs.rows[p.dc].kind == Transfer
      && (s.dcs.rows[p.dc].status == Issued || s.dcs.rows[p.dc].status == Splitting)
      && p.dests != [] && forall d :: d in p.dests ==> Unsplit(s, p.dc, d)
  {
    hide Inv, Linked, Problem, Unsplit, MetadataOf, FirstProblem;
    if p.dc in s.dcs.rows && s.dcs.rows[p.dc].kind == Transfer {
      LinkedPart(s);
      MetadataIs(s, p.dc);
      SelectionAccepted(s, p);
    }
  }

  lemma LinkedPart(s: Store)
    requires Inv(s)
    ensures Linked(s)
  {
  }

  lemma SelectionAccepted(s: Store, p: SplitParams)
    requires Linked(s) && p.dc in s.dcs.rows && s.dcs.rows[p.dc].kind == Transfer && MetadataOf(s.transfers, p.dc) != {}
    ensures FirstProblem(s.dests, Least(MetadataOf(s.transfers, p.dc)), p.dests, |p.dests|) == None <==>
      forall d :: d in p.dests ==> Unsplit(s, p.dc, d)
  {
    hide Linked, Problem, Unsplit, MetadataOf;
    var t := Least(MetadataOf(s.transfers, p.dc));
    NoProblem(s.dests, t, p.dests, |p.dests|);
    forall d
      ensures Problem(s.dests, t, d) == None <==> Unsplit(s, p.dc, d)
    {
      NoProblemExactly(s, p.dc, d);
    }
    if FirstProblem(s.dests, t, p.dests, |p.dests|) == None {
      forall d | d in p.dests
        ensures Unsplit(s, p.dc, d)
      {
        var i :| 0 <= i < |p.dests| && p.dests[i] == d;
      }
    }
  }

  /** A split can be undone exactly when its record is live and its group is still draft. */
  lemma UndoAcceptedExactly(s: Store, x: Id)
    requires Inv(s)
    ensures UndoCheck(s, x) == None <==>
      x in s.splits.rows && s.splits.rows[x].group in s.groups.rows && s.groups.rows[s.splits.rows[x].group].status == Draft
  {
  }

  // ---- Issuing and deleting ----

  /** A DC can be issued exactly when it is draft and the serials of the transit DC of its group, or its own if it
      belongs to none, are acceptable. */
  lemma IssueAcceptedExactly(s: Store, tracking: TrackingTable, d: Id)
    requires Inv(s)
    ensures SingleIssueCheck(s, tracking, d) == None <==>
      && d in s.dcs.rows && s.dcs.rows[d].status == Draft
      && if s.dcs.rows[d].group == 0 then Acceptable(s, tracking, d)
         else forall x :: x in TransitMembers(s.dcs, s.dcs.rows[d].group) ==> Acceptable(s, tracking, x)
  {
    if d in s.dcs.rows && s.dcs.rows[d].status == Draft {
      SoundDc(s, d);
      hide Inv, Acceptable, TransitMembers;
      if s.dcs.rows[d].group == 0 {
        SerialCheckExactly(s, tracking, d, s.dcs.rows[d].project);
      } else {
        GroupIssuableExactly(s, tracking, s.dcs.rows[d].group);
      }
    }
  }

  lemma SoundDc(s: Store, d: Id)
    requires Inv(s) && d in s.dcs.rows
    ensures CleanSerials(s.serials)
    ensures s.dcs.rows[d].group != 0 ==>
      s.dcs.rows[d].group in s.groups.rows && s.groups.rows[s.dcs.rows[d].group].status == s.dcs.rows[d].status
  {
  }

  /** A DC can be deleted exactly when it is a draft of the project; the state of its group never stands in the way. */
  lemma DeleteAcceptedExactly(s: Store, project: Id, d: Id)
    requires Inv(s)
    ensures ChallanDeleteCheck(s, project, d) == None <==>
      d in s.dcs.rows && s.dcs.rows[d].project == project && s.dcs.rows[d].status == Draft
  {
    if d in s.dcs.rows {
      SoundDc(s, d);
    }
  }

  lemma GroupDeleteAcceptedExactly(s: Store, project: Id, g: Id)
    ensures GroupDeleteRequest(s, project, g) == None <==>
      g in s.groups.rows && s.groups.rows[g].project == project && s.groups.rows[g].status == Draft
  {
  }

  // ---- What a deletion takes away ----

  /** u is t without the rows in gone. */
  ghost predicate Without<R>(t: Table<R>, u: Table<R>, gone: set<Id>) {
    u.next == t.next && u.rows.Keys == t.rows.Keys - gone && forall i :: i in u.rows ==> u.rows[i] == t.rows[i]
  }

  ghost function LinesOn(s: Store, ds: set<Id>): set<Id> {
    set l | l in s.lines.rows && s.lines.rows[l].dc in ds
  }

  ghost function SerialsOn(s: Store, ds: set<Id>): set<Id> {
    set x | x in s.serials.rows && s.serials.rows[x].line in s.lines.rows && s.lines.rows[s.serials.rows[x].line].dc in ds
  }

  ghost function TransfersOf(s: Store, ds: set<Id>): set<Id> {
    set t | t in s.transfers.rows && s.transfers.rows[t].dc in ds
  }

  ghost function DestinationsBelow(s: Store, ds: set<Id>): set<Id> {
    set d | d in s.dests.rows && s.dests.rows[d].transfer in TransfersOf(s, ds)
  }

  ghost function PlansBelow(s: Store, ds: set<Id>): set<Id> {
    set p | p in s.plans.rows && s.plans.rows[p].destination in DestinationsBelow(s, ds)
  }

  /** a is s without the DCs ds and everything recorded on them, and without group g and its split record, if g is not blank. */
  ghost predicate Deleted(s: Store, a: Store, ds: set<Id>, g: Id) {
    && Without(s.dcs, a.dcs, ds) && Without(s.lines, a.lines, LinesOn(s, ds)) && Without(s.serials, a.serials, SerialsOn(s, ds))
    && Without(s.transfers, a.transfers, TransfersOf(s, ds)) && Without(s.dests, a.dests, DestinationsBelow(s, ds))
    && Without(s.plans, a.plans, PlansBelow(s, ds))
    && Without(s.groups, a.groups, {g})
    && Without(s.splits, a.splits, if g in s.groups.rows && s.groups.rows[g].transfer != 0 then {s.groups.rows[g].split} else {})
    && a.counters == s.counters && a.starts == s.starts
  }

  lemma NoTransferMembers(s: Store, g: Id)
    requires Linked(s) && g in s.groups.rows
    ensures var ds := Members(s.dcs, g);
      ds <= s.dcs.rows.Keys && TransfersOf(s, ds) == {} && DestinationsBelow(s, ds) == {} && PlansBelow(s, ds) == {}
  {
  }

  lemma RecordOfGroup(s: Store, g: Id)
    requires Linked(s) && g in s.groups.rows
    ensures SplitsOf(s.splits, g) == if s.groups.rows[g].transfer != 0 then {s.groups.rows[g].split} else {}
  {
  }

  lemma ChallansDeleted(s: Store, ds: set<Id>)
    ensures var a := RemoveChallans(s, ds);
      Without(s.dcs, a.dcs, ds) && Without(s.lines, a.lines, LinesOn(s, ds))
    ensures RowsLinked(s) ==> Without(s.serials, RemoveChallans(s, ds).serials, SerialsOn(s, ds))
  {
    assert LinesOfAll(s.lines, ds) == LinesOn(s, ds);
    if RowsLinked(s) {
      assert SerialsOfAll(s.serials, LinesOn(s, ds)) == SerialsOn(s, ds);
    }
  }

  lemma NoneGone<R>(t: Table<R>)
    ensures Without(t, t, {})
  {
  }

  lemma GroupDeleted(s: Store, g: Id)
    requires Linked(s) && g in s.groups.rows
    ensures Deleted(s, RemoveGroup(s, g), Members(s.dcs, g), g)
  {
    RowsPart(s);
    hide Linked, RowsLinked, Members, LinesOn, SerialsOn, TransfersOf, DestinationsBelow, PlansBelow, RemoveChallans;
    NoTransferMembers(s, g);
    RecordOfGroup(s, g);
    ChallansDeleted(s, Members(s.dcs, g));
    GroupRowsDeleted(s, g);
    NoneGone(s.transfers);
    NoneGone(s.dests);
    NoneGone(s.plans);
  }

  lemma RowsPart(s: Store)
    requires Linked(s)
    ensures RowsLinked(s)
  {
  }

  /** Everything a group deletion does to the tables, and to no other. */
  lemma GroupRowsDeleted(s: Store, g: Id)
    ensures var a, r := RemoveGroup(s, g), RemoveChallans(s, Members(s.dcs, g));
      && a.dcs == r.dcs && a.lines == r.lines && a.serials == r.serials
      && a.transfers == s.transfers && a.dests == s.dests && a.plans == s.plans
      && Without(s.groups, a.groups, {g}) && Without(s.splits, a.splits, SplitsOf(s.splits, g))
      && a.counters == s.counters && a.starts == s.starts
  {
  }

  lemma TransferDeleted(s: Store, d: Id)
    requires Linked(s) && d in s.dcs.rows && s.dcs.rows[d].group == 0
    ensures Deleted(s, RemoveTransfer(s, d), {d}, 0)
  {
    assert MetadataOf(s.transfers, d) == TransfersOf(s, {d});
    assert DestinationsOfAll(s.dests, MetadataOf(s.transfers, d)) == DestinationsBelow(s, {d});
    assert PlansOfAll(s.plans, DestinationsBelow(s, {d})) == PlansBelow(s, {d});
    assert LinesOfAll(s.lines, {d}) == LinesOn(s, {d});
    assert SerialsOfAll(s.serials, LinesOn(s, {d})) == SerialsOn(s, {d});
  }

  /** An accepted deletion of a DC takes the DC, or all members of its group with the group and its split record,
      with all their lines, serials, destinations and plans, and nothing else. */
  lemma DeleteTakesExactly(s: Store, project: Id, d: Id)
    requires Inv(s) && ChallanDeleteCheck(s, project, d) == None
    ensures var g := s.dcs.rows[d].group;
      Deleted(s, Step(s, DeleteChallan(project, d)), if g == 0 then {d} else Members(s.dcs, g), g)
  {
    hide Inv, Linked, Deleted, RemoveGroup, RemoveTransfer, Members, Step, ChallanDeleteCheck;
    ChallanDeleteSteps(s, project, d);
    LinkedPart(s);
    SoundDc(s, d);
    UngroupedIsTransfer(s, d);
    if s.dcs.rows[d].group == 0 {
      TransferDeleted(s, d);
    } else {
      GroupDeleted(s, s.dcs.rows[d].group);
    }
  }

  lemma UngroupedIsTransfer(s: Store, d: Id)
    requires Linked(s) && d in s.dcs.rows
    ensures s.dcs.rows[d].group == 0 <==> s.dcs.rows[d].kind == Transfer
  {
  }

  lemma GroupDeleteSteps(s: Store, project: Id, g: Id)
    requires GroupDeleteRequest(s, project, g) == None
    ensures g in s.groups.rows && Step(s, DeleteGroup(project, g)) == RemoveGroup(s, g)
  {
    hide RemoveGroup;
  }

  lemma ChallanDeleteSteps(s: Store, project: Id, d: Id)
    requires ChallanDeleteCheck(s, project, d) == None
    ensures d in s.dcs.rows && Step(s, DeleteChallan(project, d)) == AfterChallanDelete(s, d)
  {
    hide AfterChallanDelete;
  }

  /** The same of an accepted deletion of a group. */
  lemma GroupDeleteTakesExactly(s: Store, project: Id, g: Id)
    requires Inv(s) && GroupDeleteRequest(s, project, g) == None
    ensures Deleted(s, Step(s, DeleteGroup(project, g)), Members(s.dcs, g), g)
  {
    hide *;
    LinkedPart(s);
    GroupDeleteSteps(s, project, g);
    GroupDeleted(s, g);
  }
}
