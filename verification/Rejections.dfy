/** With which error a call is rejected in a sound state. */
module Rejections {
  import opened Tables
  import opened Records
  import opened SplitSpec
  import opened IssueSpec
  import opened DeletionSpec
  import opened Invariants
  import opened SerialRules
  import opened Runs
  import opened Acceptance

  // ---- Splits ----

  lemma {:induction false} FirstProblemAt(dests: Table<Destination>, t: Id, ds: seq<Id>, i: nat, n: nat)
    requires i < n <= |ds| && Problem(dests, t, ds[i]).Some? && forall j :: 0 <= j < i ==> Problem(dests, t, ds[j]) == None
    ensures FirstProblem(dests, t, ds, n) == Problem(dests, t, ds[i])
  {
    if i < n - 1 {
      FirstProblemAt(dests, t, ds, i, n - 1);
    } else {
      NoProblem(dests, t, ds, i);
    }
  }

  /** What is wrong with selecting destination d for transfer DC dc. */
  ghost function Complaint(s: Store, dc: Id, d: Id): Error {
    if d !in s.dests.rows then DestinationNotFound(d)
    else if s.dests.rows[d].isSplit then AlreadySplit(d)
    else ForeignDestination(d)
  }

  lemma ProblemIsComplaint(s: Store, dc: Id, d: Id)
    requires Linked(s) && dc in s.dcs.rows && s.dcs.rows[dc].kind == Transfer && MetadataOf(s.transfers, dc) != {} && !Unsplit(s, dc, d)
    ensures Problem(s.dests, Least(MetadataOf(s.transfers, dc)), d) == Some(Complaint(s, dc, d))
  {
    MetadataIs(s, dc);
  }

  /** A selection is rejected for its first destination that is not an unsplit one of the transfer DC: because it does not
      exist, is split already, or belongs elsewhere. */
  lemma SelectionRejectedFor(s: Store, p: SplitParams, i: nat)
    requires Inv(s) && p.dc in s.dcs.rows && s.dcs.rows[p.dc].kind == Transfer
    requires s.dcs.rows[p.dc].status == Issued || s.dcs.rows[p.dc].status == Splitting
    requires i < |p.dests| && !Unsplit(s, p.dc, p.dests[i]) && forall j :: 0 <= j < i ==> Unsplit(s, p.dc, p.dests[j])
    ensures SplitCheck(s, p) == Some(Complaint(s, p.dc, p.dests[i]))
  {
    LinkedPart(s);
    hide Inv, Linked, Problem, Unsplit, MetadataOf, Complaint, FirstProblem;
    MetadataIs(s, p.dc);
    var t := Least(MetadataOf(s.transfers, p.dc));
    forall j | 0 <= j < i
      ensures Problem(s.dests, t, p.dests[j]) == None
    {
      NoProblemExactly(s, p.dc, p.dests[j]);
    }
    ProblemIsComplaint(s, p.dc, p.dests[i]);
    FirstProblemAt(s.dests, t, p.dests, i, |p.dests|);
  }

  /** Before any destination is looked at: the DC must exist, be issued or splitting, and be a transfer DC;
      it always has its metadata. An empty selection is refused last. */
  lemma SplitRejectedExactly(s: Store, p: SplitParams)
    requires Inv(s)
    ensures SplitCheck(s, p) == Some(ChallanNotFound) <==> p.dc !in s.dcs.rows
    ensures SplitCheck(s, p) == Some(WrongStatus) <==>
      p.dc in s.dcs.rows && (s.dcs.rows[p.dc].status == Draft || s.dcs.rows[p.dc].status == Split)
    ensures SplitCheck(s, p) == Some(NotTransfer) <==>
      p.dc in s.dcs.rows && (s.dcs.rows[p.dc].status == Issued || s.dcs.rows[p.dc].status == Splitting) && s.dcs.rows[p.dc].kind != Transfer
    ensures SplitCheck(s, p) != Some(NoMetadata)
    ensures SplitCheck(s, p) == Some(NoLocations) <==>
      p.dc in s.dcs.rows && (s.dcs.rows[p.dc].status == Issued || s.dcs.rows[p.dc].status == Splitting)
      && s.dcs.rows[p.dc].kind == Transfer && p.dests == []
  {
    if p.dc in s.dcs.rows && s.dcs.rows[p.dc].kind == Transfer {
      LinkedPart(s);
      MetadataIs(s, p.dc);
      hide Inv, Linked, Problem, MetadataOf;
      OnlyComplaints(s.dests, Least(MetadataOf(s.transfers, p.dc)), p.dests, |p.dests|);
    }
  }

  lemma {:induction false} OnlyComplaints(dests: Table<Destination>, t: Id, ds: seq<Id>, n: nat)
    requires n <= |ds|
    ensures var e := FirstProblem(dests, t, ds, n);
      e == None || (e.Some? && n > 0 && (e.value.DestinationNotFound? || e.value.AlreadySplit? || e.value.ForeignDestination?))
  {
    if n > 0 {
      OnlyComplaints(dests, t, ds, n - 1);
    }
  }

  /** An undo is rejected because the record is gone, or else because its group is no longer draft. */
  lemma UndoRejectedExactly(s: Store, x: Id)
    requires Inv(s)
    ensures UndoCheck(s, x) == Some(SplitNotFound) <==> x !in s.splits.rows
    ensures UndoCheck(s, x) == Some(GroupNotDraft) <==>
      x in s.splits.rows && s.splits.rows[x].group in s.groups.rows && s.groups.rows[s.splits.rows[x].group].status != Draft
    ensures UndoCheck(s, x) in {None, Some(SplitNotFound), Some(GroupNotDraft)}
  {
  }

  // ---- Deleting ----

  lemma DeleteRejectedExactly(s: Store, project: Id, d: Id)
    requires Inv(s)
    ensures ChallanDeleteCheck(s, project, d) == Some(ChallanNotFound) <==> d !in s.dcs.rows || s.dcs.rows[d].project != project
    ensures ChallanDeleteCheck(s, project, d) == Some(WrongStatus) <==>
      d in s.dcs.rows && s.dcs.rows[d].project == project && s.dcs.rows[d].status != Draft
  {
    if d in s.dcs.rows {
      SoundDc(s, d);
    }
  }

  lemma GroupDeleteRejectedExactly(s: Store, project: Id, g: Id)
    ensures GroupDeleteRequest(s, project, g) == Some(GroupNotFound) <==> g !in s.groups.rows || s.groups.rows[g].project != project
    ensures GroupDeleteRequest(s, project, g) == Some(GroupNotDraft) <==>
      g in s.groups.rows && s.groups.rows[g].project == project && s.groups.rows[g].status != Draft
  {
  }

  // ---- Issuing ----

  /** In any state, sound or not, a draft group with a member that is not draft is refused. */
  lemma GroupIssueRejectedExactly(s: Store, tracking: TrackingTable, g: Id)
    ensures GroupIssueCheck(s, tracking, g) == Some(GroupNotFound) <==> g !in s.groups.rows
    ensures GroupIssueCheck(s, tracking, g) == Some(WrongStatus) <==> g in s.groups.rows && s.groups.rows[g].status != Draft
    ensures GroupIssueCheck(s, tracking, g) == Some(MemberNotDraft) <==>
      g in s.groups.rows && s.groups.rows[g].status == Draft
      && exists d :: d in s.dcs.rows && s.dcs.rows[d].group == g && s.dcs.rows[d].status != Draft
  {
    if g in s.groups.rows {
      SerialProblemsOnly(s, tracking, s.groups.rows[g].project, Ascending(Members(s.dcs, g)));
    }
    assert forall d :: d in Members(s.dcs, g) <==> d in s.dcs.rows && s.dcs.rows[d].group == g;
  }

  ghost predicate SerialError(e: Option<Error>) {
    e == None || (e.Some? && (e.value.SerialCount? || e.value.SerialDuplicate? || e.value.SerialInUse?))
  }

  lemma LineSerialError(s: Store, tracking: TrackingTable, others: set<string>, l: Id)
    requires l in s.lines.rows
    ensures SerialError(LineProblem(s, tracking, others, l))
  {
  }

  lemma ChallanSerialError(s: Store, tracking: TrackingTable, dc: Id, project: Id)
    ensures SerialError(SerialCheck(s, tracking, dc, project))
  {
    hide LineProblem, OtherTexts;
    var ids, others := Ascending(LinesOf(s.lines, dc)), OtherTexts(s, dc, project);
    var findings := LineProblems(s, tracking, others, ids);
    FirstNone(findings);
    if First(findings) != None {
      var k :| 0 <= k < |findings| && First(findings) == findings[k];
      assert ids[k] in ids;
      LineSerialError(s, tracking, others, ids[k]);
    }
  }

  lemma SerialProblemsOnly(s: Store, tracking: TrackingTable, project: Id, ids: seq<Id>)
    requires forall d :: d in ids ==> d in s.dcs.rows
    ensures SerialError(First(MemberProblems(s, tracking, project, ids)))
  {
    hide SerialCheck;
    var findings := MemberProblems(s, tracking, project, ids);
    FirstNone(findings);
    if First(findings) != None {
      var k :| 0 <= k < |findings| && First(findings) == findings[k];
      ChallanSerialError(s, tracking, ids[k], project);
      assert findings[k] == MemberProblem(s, tracking, project, ids[k]);
    }
  }

  lemma SerialErrorsApart()
    ensures forall e :: SerialError(e) ==> e != Some(ChallanNotFound) && e != Some(WrongStatus) && e != Some(NotTransfer)
  {
  }

  /** IssueTransferDC in particular takes no other DC than a draft transfer DC with acceptable serials. */
  lemma TransferIssueExactly(s: Store, tracking: TrackingTable, d: Id)
    requires Inv(s)
    ensures TransferIssueCheck(s, tracking, d) == None <==>
      d in s.dcs.rows && s.dcs.rows[d].kind == Transfer && s.dcs.rows[d].status == Draft && Acceptable(s, tracking, d)
    ensures TransferIssueCheck(s, tracking, d) == Some(ChallanNotFound) <==> d !in s.dcs.rows
    ensures TransferIssueCheck(s, tracking, d) == Some(WrongStatus) <==> d in s.dcs.rows && s.dcs.rows[d].status != Draft
    ensures TransferIssueCheck(s, tracking, d) == Some(NotTransfer) <==>
      d in s.dcs.rows && s.dcs.rows[d].status == Draft && s.dcs.rows[d].kind != Transfer
  {
    if d in s.dcs.rows {
      SoundDc(s, d);
      SerialErrorsApart();
      hide Inv, Acceptable, SerialCheck, SerialError;
      SerialCheckExactly(s, tracking, d, s.dcs.rows[d].project);
      ChallanSerialError(s, tracking, d, s.dcs.rows[d].project);
    }
  }

  /** A single DC that is missing or not draft is refused as such; any other refusal is about serials. */
  lemma IssueRejectedExactly(s: Store, tracking: TrackingTable, d: Id)
    requires Inv(s)
    ensures SingleIssueCheck(s, tracking, d) == Some(ChallanNotFound) <==> d !in s.dcs.rows
    ensures SingleIssueCheck(s, tracking, d) == Some(WrongStatus) <==> d in s.dcs.rows && s.dcs.rows[d].status != Draft
    ensures d in s.dcs.rows && s.dcs.rows[d].status == Draft ==> SerialError(SingleIssueCheck(s, tracking, d))
  {
    if d in s.dcs.rows {
      SerialErrorsApart();
    }
    if d in s.dcs.rows && s.dcs.rows[d].status == Draft {
      SoundDc(s, d);
      var g := s.dcs.rows[d].group;
      hide Inv, SerialCheck, MemberProblems, SerialError;
      if g == 0 {
        ChallanSerialError(s, tracking, d, s.dcs.rows[d].project);
      } else {
        MembersAlike(s, g);
        SerialProblemsOnly(s, tracking, s.groups.rows[g].project, Ascending(Members(s.dcs, g)));
      }
    }
  }
}
