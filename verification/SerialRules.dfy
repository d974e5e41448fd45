/** What the serial checks on issue amount to when the stored serials are clean. */
module SerialRules {
  import opened Tables
  import opened Records
  import opened Serials
  import opened IssueSpec
  import opened Invariants

  /** The texts on a line are pairwise distinct, and as many as its quantity where tracking requires it. */
  ghost predicate LineAcceptable(s: Store, tracking: TrackingTable, l: Id)
    requires l in s.lines.rows
  {
    && Serials.NoRepeats(LineTexts(s.serials, l))
    && var row := s.lines.rows[l];
       (row.key in tracking && tracking[row.key] == Required && row.quantity > 0 ==> |SerialsOf(s.serials, l)| == row.quantity)
  }

  lemma CleanTexts(s: Store, l: Id)
    requires CleanSerials(s.serials)
    ensures var texts := LineTexts(s.serials, l); Entries(texts, |texts|) == texts
  {
    var texts, ids := LineTexts(s.serials, l), Ascending(SerialsOf(s.serials, l));
    forall i | 0 <= i < |texts|
      ensures CleanText(texts[i])
    {
      assert ids[i] in ids;
    }
    CleanEntries(texts, |texts|);
    assert texts[..|texts|] == texts;
  }

  lemma TextsAreOwn(s: Store, dc: Id, l: Id)
    requires l in LinesOf(s.lines, dc)
    ensures forall t :: t in LineTexts(s.serials, l) ==> t in OwnTexts(s, dc)
  {
    var ids := Ascending(SerialsOf(s.serials, l));
    forall t | t in LineTexts(s.serials, l)
      ensures t in OwnTexts(s, dc)
    {
      var k :| 0 <= k < |ids| && LineTexts(s.serials, l)[k] == t;
      assert ids[k] in SerialsOf(s.serials, l) && s.serials.rows[ids[k]].line in LinesOf(s.lines, dc);
    }
  }

  /** A line passes exactly when it is acceptable; no serial is ever found in use elsewhere. */
  lemma LineVerdict(s: Store, tracking: TrackingTable, dc: Id, project: Id, l: Id)
    requires CleanSerials(s.serials) && l in LinesOf(s.lines, dc)
    ensures var e := LineProblem(s, tracking, OtherTexts(s, dc, project), l);
      (e == None <==> LineAcceptable(s, tracking, l)) && e != Some(SerialInUse(l))
  {
    var texts := LineTexts(s.serials, l);
    CleanTexts(s, l);
    TextsAreOwn(s, dc, l);
    RepeatsNone(texts);
    forall t | t in texts
      ensures t !in OtherTexts(s, dc, project)
    {
    }
  }

  lemma {:induction false} FirstNone(findings: seq<Option<Error>>)
    ensures First(findings) == None <==> forall k :: 0 <= k < |findings| ==> findings[k] == None
    ensures First(findings) != None ==> exists k :: 0 <= k < |findings| && First(findings) == findings[k]
  {
    if findings != [] && findings[0] == None {
      FirstNone(findings[1..]);
      if First(findings) != None {
        var k :| 0 <= k < |findings[1..]| && First(findings) == findings[1..][k];
        assert findings[k + 1] == First(findings);
      }
      if k :| 0 <= k < |findings| && findings[k] != None {
        assert findings[1..][k - 1] != None;
      }
    }
  }

  ghost predicate Acceptable(s: Store, tracking: TrackingTable, dc: Id) {
    forall l :: l in LinesOf(s.lines, dc) ==> LineAcceptable(s, tracking, l)
  }

  lemma AllListed(ids: seq<Id>, all: set<Id>, findings: seq<Option<Error>>, good: set<Id>)
    requires |findings| == |ids| && (forall x :: x in ids <==> x in all)
    requires forall k :: 0 <= k < |ids| ==> (findings[k] == None <==> ids[k] in good)
    ensures First(findings) == None <==> all <= good
  {
    FirstNone(findings);
    if First(findings) == None {
      forall x | x in all
        ensures x in good
      {
        var k :| 0 <= k < |ids| && ids[k] == x;
      }
    }
    if all <= good {
      forall k | 0 <= k < |ids|
        ensures findings[k] == None
      {
        assert ids[k] in ids;
      }
    }
  }

  ghost function GoodLines(s: Store, tracking: TrackingTable, dc: Id): set<Id> {
    set l | l in LinesOf(s.lines, dc) && LineAcceptable(s, tracking, l)
  }

  lemma LineFinding(s: Store, tracking: TrackingTable, dc: Id, project: Id, ids: seq<Id>, k: nat)
    requires CleanSerials(s.serials) && ids == Ascending(LinesOf(s.lines, dc)) && k < |ids|
    ensures var e := LineProblems(s, tracking, OtherTexts(s, dc, project), ids)[k];
      (e == None <==> ids[k] in GoodLines(s, tracking, dc)) && !(e.Some? && e.value.SerialInUse?)
  {
    assert ids[k] in ids;
    LineVerdict(s, tracking, dc, project, ids[k]);
  }

  lemma LineFindings(s: Store, tracking: TrackingTable, dc: Id, project: Id, ids: seq<Id>, findings: seq<Option<Error>>)
    requires CleanSerials(s.serials) && ids == Ascending(LinesOf(s.lines, dc))
    requires findings == LineProblems(s, tracking, OtherTexts(s, dc, project), ids)
    ensures forall k :: 0 <= k < |ids| ==> (findings[k] == None <==> ids[k] in GoodLines(s, tracking, dc))
    ensures forall k :: 0 <= k < |ids| ==> !(findings[k].Some? && findings[k].value.SerialInUse?)
  {
    forall k | 0 <= k < |ids|
      ensures (findings[k] == None <==> ids[k] in GoodLines(s, tracking, dc)) && !(findings[k].Some? && findings[k].value.SerialInUse?)
    {
      LineFinding(s, tracking, dc, project, ids, k);
    }
  }

  lemma GoodIsAcceptable(s: Store, tracking: TrackingTable, dc: Id)
    ensures LinesOf(s.lines, dc) <= GoodLines(s, tracking, dc) <==> Acceptable(s, tracking, dc)
  {
    forall l | l in LinesOf(s.lines, dc)
      ensures l in GoodLines(s, tracking, dc) <==> LineAcceptable(s, tracking, l)
    {
    }
  }

  /** A DC is accepted exactly when each of its lines is acceptable by itself,
      and it is never rejected because of serials recorded on another DC. */
  lemma SerialCheckExactly(s: Store, tracking: TrackingTable, dc: Id, project: Id)
    requires CleanSerials(s.serials)
    ensures SerialCheck(s, tracking, dc, project) == None <==> Acceptable(s, tracking, dc)
    ensures forall l :: SerialCheck(s, tracking, dc, project) != Some(SerialInUse(l))
  {
    var ids := Ascending(LinesOf(s.lines, dc));
    var findings := LineProblems(s, tracking, OtherTexts(s, dc, project), ids);
    LineFindings(s, tracking, dc, project, ids, findings);
    AllListed(ids, LinesOf(s.lines, dc), findings, GoodLines(s, tracking, dc));
    FirstNone(findings);
    GoodIsAcceptable(s, tracking, dc);
  }

  /** Tracking requires serials on line l, and it does not have as many as its quantity. */
  ghost predicate Short(s: Store, tracking: TrackingTable, l: Id)
    requires l in s.lines.rows
  {
    var row := s.lines.rows[l];
    row.key in tracking && tracking[row.key] == Required && row.quantity > 0 && |SerialsOf(s.serials, l)| != row.quantity
  }

  lemma CountProblem(s: Store, tracking: TrackingTable, others: set<string>, k: Id, l: Id)
    requires k in s.lines.rows && LineProblem(s, tracking, others, k) == Some(SerialCount(l))
    ensures k == l && Short(s, tracking, l)
  {
  }

  /** Only required tracking makes the number of serials count: where an item is not tracked, or tracked optionally,
      no number of serials leads to a rejection. */
  lemma OnlyRequiredCounts(s: Store, tracking: TrackingTable, dc: Id, project: Id, l: Id)
    requires SerialCheck(s, tracking, dc, project) == Some(SerialCount(l))
    ensures l in LinesOf(s.lines, dc) && Short(s, tracking, l)
  {
    hide Short, LineProblem, OtherTexts;
    var ids, others := Ascending(LinesOf(s.lines, dc)), OtherTexts(s, dc, project);
    var findings := LineProblems(s, tracking, others, ids);
    FirstNone(findings);
    var k :| 0 <= k < |findings| && First(findings) == findings[k];
    assert ids[k] in ids;
    CountProblem(s, tracking, others, ids[k], l);
  }

  lemma FaultyLine(s: Store, tracking: TrackingTable, dc: Id, project: Id, l: Id)
    requires CleanSerials(s.serials) && l in LinesOf(s.lines, dc) && !LineAcceptable(s, tracking, l)
    ensures LineProblem(s, tracking, OtherTexts(s, dc, project), l)
      == Some(if Short(s, tracking, l) then SerialCount(l) else SerialDuplicate(l))
  {
    CleanTexts(s, l);
    RepeatsNone(LineTexts(s.serials, l));
  }

  /** A rejection names the first line that is not acceptable, and a wrong number of serials before a repeated one. */
  lemma FirstFaultReported(s: Store, tracking: TrackingTable, dc: Id, project: Id, l: Id)
    requires CleanSerials(s.serials) && l in LinesOf(s.lines, dc) && !LineAcceptable(s, tracking, l)
    requires forall k :: k in LinesOf(s.lines, dc) && k < l ==> LineAcceptable(s, tracking, k)
    ensures SerialCheck(s, tracking, dc, project) == Some(if Short(s, tracking, l) then SerialCount(l) else SerialDuplicate(l))
  {
    hide LineAcceptable, Short, LineProblem;
    var ids := Ascending(LinesOf(s.lines, dc));
    var findings := LineProblems(s, tracking, OtherTexts(s, dc, project), ids);
    var i :| 0 <= i < |ids| && ids[i] == l;
    forall k | 0 <= k < i
      ensures findings[k] == None
    {
      assert ids[k] in ids && ids[k] < ids[i];
      LineVerdict(s, tracking, dc, project, ids[k]);
    }
    FaultyLine(s, tracking, dc, project, l);
    assert findings[i] == LineProblem(s, tracking, OtherTexts(s, dc, project), l);
    FirstIs(findings, i);
  }

  /** The verdict on a DC does not depend on what other DCs record, its own parent included. */
  lemma VerdictIsLocal(s: Store, a: Store, tracking: TrackingTable, dc: Id, project: Id)
    requires CleanSerials(s.serials) && CleanSerials(a.serials)
    requires LinesOf(a.lines, dc) == LinesOf(s.lines, dc)
    requires forall l :: l in LinesOf(s.lines, dc) ==>
      a.lines.rows[l] == s.lines.rows[l] && LineTexts(a.serials, l) == LineTexts(s.serials, l)
    ensures SerialCheck(a, tracking, dc, project) == None <==> SerialCheck(s, tracking, dc, project) == None
  {
    SerialCheckExactly(s, tracking, dc, project);
    SerialCheckExactly(a, tracking, dc, project);
    forall l | l in LinesOf(s.lines, dc)
      ensures LineAcceptable(a, tracking, l) <==> LineAcceptable(s, tracking, l)
    {
      assert |LineTexts(a.serials, l)| == |SerialsOf(a.serials, l)|;
    }
  }

  lemma MembersAlike(s: Store, g: Id)
    requires Inv(s) && g in s.groups.rows && s.groups.rows[g].status == Draft
    ensures CleanSerials(s.serials) && forall d :: d in Members(s.dcs, g) ==> s.dcs.rows[d].status == Draft
  {
  }

  /** In every run, a group can be issued exactly when it is draft and its transit DC is acceptable. */
  lemma GroupIssuableExactly(s: Store, tracking: TrackingTable, g: Id)
    requires Inv(s) && g in s.groups.rows
    ensures GroupIssueCheck(s, tracking, g) == None <==>
      s.groups.rows[g].status == Draft && forall d :: d in TransitMembers(s.dcs, g) ==> Acceptable(s, tracking, d)
  {
    if s.groups.rows[g].status == Draft {
      MembersAlike(s, g);
      MembersVerdict(s, tracking, g, s.groups.rows[g].project);
    }
  }

  lemma MembersVerdict(s: Store, tracking: TrackingTable, g: Id, project: Id)
    requires CleanSerials(s.serials)
    ensures First(MemberProblems(s, tracking, project, Ascending(Members(s.dcs, g)))) == None <==>
      forall d :: d in TransitMembers(s.dcs, g) ==> Acceptable(s, tracking, d)
  {
    var ids := Ascending(Members(s.dcs, g));
    var findings := MemberProblems(s, tracking, project, ids);
    var good := set d | d in Members(s.dcs, g) && (d in TransitMembers(s.dcs, g) ==> Acceptable(s, tracking, d));
    forall k | 0 <= k < |ids|
      ensures findings[k] == None <==> ids[k] in good
    {
      assert ids[k] in ids;
      SerialCheckExactly(s, tracking, ids[k], project);
      assert findings[k] == MemberProblem(s, tracking, project, ids[k]);
    }
    AllListed(ids, Members(s.dcs, g), findings, good);
    if Members(s.dcs, g) <= good {
      forall d | d in TransitMembers(s.dcs, g)
        ensures Acceptable(s, tracking, d)
      {
        assert d in good;
      }
    }
  }
}
